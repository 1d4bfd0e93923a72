/** One-time codes as the user and admin account handlers issue and check
    them: a code and its expiry time are stored on the account; a check
    compares the submitted code with the stored one and then the expiry
    with the current time; a successful use clears the code. */
module Otp {
  import Strings

  /** A stored expiry time in milliseconds since the epoch, or `null`
      (changeUsername stores null). */
  datatype Millis = At(ms: int) | Null

  /** The number `expireAt < Date.now()` compares: null becomes 0. */
  function AsNumber(m: Millis): (n: int)
    ensures m.At? ==> n == m.ms
    ensures m.Null? ==> n == 0
  {
    match m
    case At(ms) => ms
    case Null => 0
  }

  /** `10 * 60 * 1000`: a code is valid for ten minutes. */
  const Lifetime: int := 600000

  /** `Math.floor(100000 + Math.random() * 900000).toString()`: six decimal
      digits, the first not zero. */
  predicate IsCode(s: string) {
    |s| == 6 && s[0] != '0' && forall i :: 0 <= i < |s| ==> Strings.IsDigit(s[i])
  }

  /** What verifyEmail and resetPassword make of a submitted code. */
  datatype Outcome = Accepted | InvalidCode | ExpiredCode

  /** `if (stored !== given || stored === '')` then "Invalid OTP!", else
      `if (expireAt < now)` then "OTP expired!". A code is accepted up to
      and including the millisecond of its expiry. */
  function CheckCode(stored: string, expireAt: Millis, given: string, now: int): (r: Outcome)
    ensures r == InvalidCode <==> stored == "" || stored != given
    ensures r == ExpiredCode <==> stored != "" && stored == given && AsNumber(expireAt) < now
    ensures r == Accepted <==> stored != "" && stored == given && now <= AsNumber(expireAt)
  {
    if stored != given || stored == "" then InvalidCode
    else if AsNumber(expireAt) < now then ExpiredCode
    else Accepted
  }

  /** What changeUsername makes of a submitted code: a missing code, a
      wrong code and an expired code each have their own reply. */
  datatype UsernameOutcome = UsernameAccepted | NoCode | WrongCode | CodeExpired

  function CheckUsernameCode(stored: string, expireAt: Millis, given: string, now: int): (r: UsernameOutcome)
    ensures r == NoCode <==> stored == ""
    ensures r == WrongCode <==> stored != "" && stored != given
    ensures r == CodeExpired <==> CheckCode(stored, expireAt, given, now) == ExpiredCode
    ensures r == UsernameAccepted <==> CheckCode(stored, expireAt, given, now) == Accepted
  {
    if stored == "" then NoCode
    else if stored != given then WrongCode
    else if AsNumber(expireAt) < now then CodeExpired
    else UsernameAccepted
  }

  /** A code issued at `issuedAt` is accepted by both checks exactly while
      `now <= issuedAt + 600000`, and only when resubmitted unchanged. */
  lemma IssuedCodeAcceptedForTenMinutes(code: string, issuedAt: int, given: string, now: int)
    requires IsCode(code)
    ensures CheckCode(code, At(issuedAt + Lifetime), given, now) == Accepted
            <==> given == code && now <= issuedAt + 600000
    ensures CheckUsernameCode(code, At(issuedAt + Lifetime), given, now) == UsernameAccepted
            <==> given == code && now <= issuedAt + 600000
  {
  }

  /** Once a successful use has cleared the code, no submission is accepted
      until a new code is issued, whatever the stored expiry. */
  lemma ClearedCodeNeverAccepted(expireAt: Millis, given: string, now: int)
    ensures CheckCode("", expireAt, given, now) == InvalidCode
    ensures CheckUsernameCode("", expireAt, given, now) == NoCode
  {
  }
}
