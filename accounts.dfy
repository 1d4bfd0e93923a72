/** Student accounts and the handlers of the auth controller: registration,
    login, email verification by one-time code, password reset by one-time
    code, and a username change that reuses the reset code. Accounts are
    kept in natural order; an account's id is its position. Passwords are
    stored as the hash the caller computed, and the password check is a
    parameter, since bcrypt is not modelled. */
module Accounts {
  import opened Store
  import opened Effects
  import Strings
  import opened Otp

  /** A stored account. The user schema (models/userModel.js) is not part
      of this model: the fields are the ones the handlers read and write. */
  datatype User = User(
    name: string, rollNumber: string, email: string, password: string,
    isAccountVerified: bool,
    verifyOtp: string, verifyOtpExpireAt: Millis,
    resetOtp: string, resetOtpExpireAt: Millis)

  /** `userModel.create({ name, rollNumber, email, password })`, the other
      fields at their defaults: not verified, no codes, expiries 0. */
  function NewUser(name: string, rollNumber: string, email: string, hashed: string): (u: User)
    ensures u.name == name && u.rollNumber == rollNumber && u.email == email && u.password == hashed
    ensures !u.isAccountVerified
    ensures u.verifyOtp == "" && u.resetOtp == ""
    ensures u.verifyOtpExpireAt == At(0) && u.resetOtpExpireAt == At(0)
  {
    User(name, rollNumber, email, hashed, false, "", At(0), "", At(0))
  }

  /** `userModel.findOne({ email })`. */
  function FindByEmail(users: seq<User>, email: string): (r: Option<nat>)
    ensures r.Some? ==> r.value < |users| && users[r.value].email == email
    ensures r.Some? ==> forall j :: 0 <= j < r.value ==> users[j].email != email
    ensures r.None? <==> forall j :: 0 <= j < |users| ==> users[j].email != email
  {
    FindFirst(users, (u: User) => u.email == email)
  }

  /** `userModel.findOne({ rollNumber, email })`. */
  function FindByCredentials(users: seq<User>, rollNumber: string, email: string): (r: Option<nat>)
    ensures r.Some? ==> r.value < |users| && users[r.value].rollNumber == rollNumber && users[r.value].email == email
    ensures r.Some? ==> forall j :: 0 <= j < r.value ==> !(users[j].rollNumber == rollNumber && users[j].email == email)
    ensures r.None? <==> forall j :: 0 <= j < |users| ==> !(users[j].rollNumber == rollNumber && users[j].email == email)
  {
    FindFirst(users, (u: User) => u.rollNumber == rollNumber && u.email == email)
  }

  /** What any handler may do to the accounts: add accounts at the end,
      never change an email address, never un-verify an account. */
  ghost predicate Extends(before: seq<User>, after: seq<User>) {
    |before| <= |after| &&
    forall i :: 0 <= i < |before| ==>
      after[i].email == before[i].email &&
      (before[i].isAccountVerified ==> after[i].isAccountVerified)
  }

  /** The code update sendResetOtp and sendResetOtp2 make. */
  function IssueReset(u: User, code: string, now: int): (v: User)
    ensures v.resetOtp == code && v.resetOtpExpireAt == At(now + Lifetime)
    ensures v == u.(resetOtp := v.resetOtp, resetOtpExpireAt := v.resetOtpExpireAt)
  {
    u.(resetOtp := code, resetOtpExpireAt := At(now + Lifetime))
  }

  /** A code issued by either reset route opens both resetPassword and
      changeUsername for ten minutes: the two routes store the same fields
      the same way, and the two checks accept the same submissions. */
  lemma ResetCodeServesBothRoutes(u: User, code: string, issuedAt: int, given: string, now: int)
    requires IsCode(code)
    ensures var v := IssueReset(u, code, issuedAt);
            var open := given == code && now <= issuedAt + Lifetime;
            (CheckCode(v.resetOtp, v.resetOtpExpireAt, given, now) == Accepted <==> open) &&
            (CheckUsernameCode(v.resetOtp, v.resetOtpExpireAt, given, now) == UsernameAccepted <==> open)
  {
    IssuedCodeAcceptedForTenMinutes(code, issuedAt, given, now);
  }

  class Users {
    var users: seq<User>

    /** `findOne({ email })` has at most one answer: registration never
        creates a second account with an address already in use. */
    ghost predicate Valid()
      reads this
    {
      forall i, j :: 0 <= i < j < |users| ==> users[i].email != users[j].email
    }

    constructor ()
      ensures Valid() && users == []
    {
      users := [];
    }

    /** `register`: all four fields required; an address already registered
        is refused; otherwise the account is created with the hashed
        password and a welcome email is awaited, whose failure makes the
        reply 500 although the account exists. */
    method Register(fx: SideEffects, name: string, rollNumber: string, email: string, password: string,
                    hashed: string, mailOk: bool) returns (reply: Reply)
      requires Valid()
      modifies this, fx
      ensures Valid() && Extends(old(users), users)
      ensures fx.unlinks == old(fx.unlinks)
      ensures name == "" || rollNumber == "" || email == "" || password == "" ==>
                reply == Reply(400, false, "Please fill all fields") &&
                users == old(users) && fx.mails == old(fx.mails)
      ensures name != "" && rollNumber != "" && email != "" && password != "" &&
              FindByEmail(old(users), email).Some? ==>
                reply == Reply(400, false, "User already exists") &&
                users == old(users) && fx.mails == old(fx.mails)
      ensures name != "" && rollNumber != "" && email != "" && password != "" &&
              FindByEmail(old(users), email).None? ==>
                users == old(users) + [NewUser(name, rollNumber, email, hashed)] &&
                fx.mails == old(fx.mails) + [Mail(To(email), Welcome)] &&
                reply.code == (if mailOk then 200 else 500) && (reply.success <==> mailOk)
    {
      if name == "" || rollNumber == "" || email == "" || password == "" {
        return Reply(400, false, "Please fill all fields");
      }
      if FindByEmail(users, email).Some? {
        return Reply(400, false, "User already exists");
      }
      users := users + [NewUser(name, rollNumber, email, hashed)];
      fx.Send(Mail(To(email), Welcome));
      if !mailOk {
        return Reply(500, false, "Failed to send welcome email");
      }
      reply := Reply(200, true, "Registration successful");
    }

    /** `login`: the first account with this roll number and email, if the
        password matches its stored hash. An unknown account and a wrong
        password get the same reply. */
    method Login(rollNumber: string, email: string, password: string, matches: (string, string) -> bool)
      returns (reply: Reply, who: Option<nat>)
      ensures rollNumber == "" || email == "" || password == "" ==>
                reply == Reply(400, false, "Please fill all fields") && who == None
      ensures rollNumber != "" && email != "" && password != "" ==>
                var found := FindByCredentials(users, rollNumber, email);
                if found.Some? && matches(password, users[found.value].password)
                then who == found && reply == Reply(200, true, "Login successful")
                else who == None && reply == Reply(400, false, "Invalid credentials")
    {
      if rollNumber == "" || email == "" || password == "" {
        return Reply(400, false, "Please fill all fields"), None;
      }
      var found := FindByCredentials(users, rollNumber, email);
      if found.None? {
        return Reply(400, false, "Invalid credentials"), None;
      }
      if !matches(password, users[found.value].password) {
        return Reply(400, false, "Invalid credentials"), None;
      }
      reply, who := Reply(200, true, "Login successful"), found;
    }

    /** `sendVerifyOtp` for the signed-in account `who` (None: the handler
        found no user). An already verified account is refused; otherwise a
        fresh code valid for ten minutes replaces any earlier one and is
        saved before the email is awaited, so a failed send (500) leaves the
        new code stored. */
    method SendVerifyOtp(fx: SideEffects, who: Option<nat>, code: string, now: int, mailOk: bool)
      returns (reply: Reply)
      requires Valid()
      requires who.Some? ==> who.value < |users|
      requires IsCode(code)
      modifies this, fx
      ensures Valid() && Extends(old(users), users)
      ensures fx.unlinks == old(fx.unlinks)
      ensures who.None? ==>
                reply == Reply(404, false, "User not found") && users == old(users) && fx.mails == old(fx.mails)
      ensures who.Some? && old(users)[who.value].isAccountVerified ==>
                reply == Reply(400, false, "Account is already verified.") &&
                users == old(users) && fx.mails == old(fx.mails)
      ensures who.Some? && !old(users)[who.value].isAccountVerified ==>
                var u := old(users)[who.value];
                users == old(users)[who.value := u.(verifyOtp := code, verifyOtpExpireAt := At(now + Lifetime))] &&
                fx.mails == old(fx.mails) + [Mail(To(u.email), VerificationCode(code))] &&
                reply.code == (if mailOk then 200 else 500) && (reply.success <==> mailOk)
    {
      if who.None? {
        return Reply(404, false, "User not found");
      }
      var i := who.value;
      var u := users[i];
      if u.isAccountVerified {
        return Reply(400, false, "Account is already verified.");
      }
      users := users[i := u.(verifyOtp := code, verifyOtpExpireAt := At(now + Lifetime))];
      fx.Send(Mail(To(u.email), VerificationCode(code)));
      if !mailOk {
        return Reply(500, false, "Failed to send verification email");
      }
      reply := Reply(200, true, "Verification email sent successfully.");
    }

    /** `verifyEmail`: the account named by `userId` in the body (not the
        signed-in one). A malformed id makes `findById` throw, which this
        handler answers with status 200 and `success: false`. On an accepted
        code the account becomes verified and the code is cleared. */
    method VerifyEmail(userId: Option<IdParam>, otp: string, now: int) returns (reply: Reply)
      requires Valid()
      modifies this
      ensures Valid() && Extends(old(users), users)
      ensures userId.None? || otp == "" ==>
                reply == Reply(400, false, "Missing Details") && users == old(users)
      ensures userId == Some(Malformed) && otp != "" ==>
                reply.code == 200 && !reply.success && users == old(users)
      ensures userId.Some? && userId.value.ObjectId? && otp != "" && userId.value.id >= |old(users)| ==>
                reply == Reply(400, false, "User not found!") && users == old(users)
      ensures userId.Some? && userId.value.ObjectId? && otp != "" && userId.value.id < |old(users)| ==>
                var i := userId.value.id;
                var u := old(users)[i];
                match CheckCode(u.verifyOtp, u.verifyOtpExpireAt, otp, now)
                case InvalidCode => reply == Reply(400, false, "Invalid OTP!") && users == old(users)
                case ExpiredCode => reply == Reply(400, false, "OTP expired!") && users == old(users)
                case Accepted =>
                  reply == Reply(200, true, "Account verified successfully!") &&
                  users == old(users)[i := u.(isAccountVerified := true, verifyOtp := "", verifyOtpExpireAt := At(0))]
    {
      if userId.None? || otp == "" {
        return Reply(400, false, "Missing Details");
      }
      if userId.value.Malformed? {
        return Reply(200, false, "Cast to ObjectId failed");
      }
      var i := userId.value.id;
      if i >= |users| {
        return Reply(400, false, "User not found!");
      }
      var u := users[i];
      if u.verifyOtp != otp || u.verifyOtp == "" {
        return Reply(400, false, "Invalid OTP!");
      }
      if AsNumber(u.verifyOtpExpireAt) < now {
        return Reply(400, false, "OTP expired!");
      }
      users := users[i := u.(isAccountVerified := true, verifyOtp := "", verifyOtpExpireAt := At(0))];
      reply := Reply(200, true, "Account verified successfully!");
    }

    /** The part sendResetOtp and sendResetOtp2 share: find the account by
        email and store a fresh reset code on it. */
    method IssueResetOtp(email: string, code: string, now: int) returns (found: Option<nat>)
      requires Valid()
      modifies this
      ensures Valid() && Extends(old(users), users)
      ensures found == FindByEmail(old(users), email)
      ensures found.None? ==> users == old(users)
      ensures found.Some? ==> users == old(users)[found.value := IssueReset(old(users)[found.value], code, now)]
    {
      found := FindByEmail(users, email);
      if found.Some? {
        users := users[found.value := IssueReset(users[found.value], code, now)];
      }
    }

    /** `sendResetOtp`: 400 without an email or for an unknown one;
        otherwise the reset code is stored, then the email is sent, and the
        reply is 500 if sending failed (the code stays stored). */
    method SendResetOtp(fx: SideEffects, email: string, code: string, now: int, mailOk: bool)
      returns (reply: Reply)
      requires Valid()
      requires IsCode(code)
      modifies this, fx
      ensures Valid() && Extends(old(users), users)
      ensures fx.unlinks == old(fx.unlinks)
      ensures email == "" ==>
                reply == Reply(400, false, "Please provide an email address") &&
                users == old(users) && fx.mails == old(fx.mails)
      ensures email != "" && FindByEmail(old(users), email).None? ==>
                reply == Reply(400, false, "User not found!") && users == old(users) && fx.mails == old(fx.mails)
      ensures email != "" && FindByEmail(old(users), email).Some? ==>
                var i := FindByEmail(old(users), email).value;
                users == old(users)[i := IssueReset(old(users)[i], code, now)] &&
                fx.mails == old(fx.mails) + [Mail(To(email), PasswordResetCode(code))] &&
                reply.code == (if mailOk then 200 else 500) && (reply.success <==> mailOk)
    {
      if email == "" {
        return Reply(400, false, "Please provide an email address");
      }
      var found := IssueResetOtp(email, code, now);
      if found.None? {
        return Reply(400, false, "User not found!");
      }
      fx.Send(Mail(To(email), PasswordResetCode(code)));
      if !mailOk {
        return Reply(500, false, "Failed to send reset OTP email.");
      }
      reply := Reply(200, true, "Reset OTP sent successfully to your email.");
    }

    /** `sendResetOtp2`: the same as sendResetOtp, with an email that
        announces the code as one for changing the username. */
    method SendResetOtp2(fx: SideEffects, email: string, code: string, now: int, mailOk: bool)
      returns (reply: Reply)
      requires Valid()
      requires IsCode(code)
      modifies this, fx
      ensures Valid() && Extends(old(users), users)
      ensures fx.unlinks == old(fx.unlinks)
      ensures email == "" ==>
                reply == Reply(400, false, "Please provide an email address") &&
                users == old(users) && fx.mails == old(fx.mails)
      ensures email != "" && FindByEmail(old(users), email).None? ==>
                reply == Reply(400, false, "User not found!") && users == old(users) && fx.mails == old(fx.mails)
      ensures email != "" && FindByEmail(old(users), email).Some? ==>
                var i := FindByEmail(old(users), email).value;
                users == old(users)[i := IssueReset(old(users)[i], code, now)] &&
                fx.mails == old(fx.mails) + [Mail(To(email), UsernameChangeCode(code))] &&
                reply.code == (if mailOk then 200 else 500) && (reply.success <==> mailOk)
    {
      if email == "" {
        return Reply(400, false, "Please provide an email address");
      }
      var found := IssueResetOtp(email, code, now);
      if found.None? {
        return Reply(400, false, "User not found!");
      }
      fx.Send(Mail(To(email), UsernameChangeCode(code)));
      if !mailOk {
        return Reply(500, false, "Failed to send reset OTP email.");
      }
      reply := Reply(200, true, "Reset OTP sent successfully to your email.");
    }

    /** `resetPassword`: on an accepted reset code the new password's hash
        replaces the old one and the code is cleared; nothing else changes. */
    method ResetPassword(email: string, otp: string, newPassword: string, newHash: string, now: int)
      returns (reply: Reply)
      requires Valid()
      modifies this
      ensures Valid() && Extends(old(users), users)
      ensures email == "" || otp == "" || newPassword == "" ==>
                reply == Reply(400, false, "Please fill all the fields") && users == old(users)
      ensures email != "" && otp != "" && newPassword != "" && FindByEmail(old(users), email).None? ==>
                reply == Reply(400, false, "User not found!") && users == old(users)
      ensures email != "" && otp != "" && newPassword != "" && FindByEmail(old(users), email).Some? ==>
                var i := FindByEmail(old(users), email).value;
                var u := old(users)[i];
                match CheckCode(u.resetOtp, u.resetOtpExpireAt, otp, now)
                case InvalidCode => reply == Reply(400, false, "Invalid OTP!") && users == old(users)
                case ExpiredCode => reply == Reply(400, false, "OTP expired!") && users == old(users)
                case Accepted =>
                  reply == Reply(200, true, "Password reset successfully!") &&
                  users == old(users)[i := u.(password := newHash, resetOtp := "", resetOtpExpireAt := At(0))]
    {
      if email == "" || otp == "" || newPassword == "" {
        return Reply(400, false, "Please fill all the fields");
      }
      var found := FindByEmail(users, email);
      if found.None? {
        return Reply(400, false, "User not found!");
      }
      var i := found.value;
      var u := users[i];
      if u.resetOtp != otp || u.resetOtp == "" {
        return Reply(400, false, "Invalid OTP!");
      }
      if AsNumber(u.resetOtpExpireAt) < now {
        return Reply(400, false, "OTP expired!");
      }
      users := users[i := u.(password := newHash, resetOtp := "", resetOtpExpireAt := At(0))];
      reply := Reply(200, true, "Password reset successfully!");
    }

    /** `changeUsername`: the three fields must not be blank (the lookup and
        the comparisons still use them untrimmed); then the account must
        hold a reset code equal to `otp` and not expired, and the new name
        must differ from the current one. On success the name changes, the
        code is cleared and its expiry set to null. */
    method ChangeUsername(email: string, otp: string, newUsername: string, now: int) returns (reply: Reply)
      requires Valid()
      modifies this
      ensures Valid() && Extends(old(users), users)
      ensures Strings.IsBlank(email) || Strings.IsBlank(otp) || Strings.IsBlank(newUsername) ==>
                reply == Reply(400, false, "All fields are required and cannot be empty") && users == old(users)
      ensures !Strings.IsBlank(email) && !Strings.IsBlank(otp) && !Strings.IsBlank(newUsername) &&
              FindByEmail(old(users), email).None? ==>
                reply == Reply(404, false, "User not found with this email") && users == old(users)
      ensures !Strings.IsBlank(email) && !Strings.IsBlank(otp) && !Strings.IsBlank(newUsername) &&
              FindByEmail(old(users), email).Some? ==>
                var i := FindByEmail(old(users), email).value;
                var u := old(users)[i];
                match CheckUsernameCode(u.resetOtp, u.resetOtpExpireAt, otp, now)
                case NoCode => reply == Reply(400, false, "No OTP was generated for this account") && users == old(users)
                case WrongCode => reply == Reply(400, false, "Invalid OTP entered") && users == old(users)
                case CodeExpired =>
                  reply == Reply(400, false, "OTP has expired. Please request a new one") && users == old(users)
                case UsernameAccepted =>
                  if u.name == newUsername then
                    reply == Reply(400, false, "New username cannot be same as current username") && users == old(users)
                  else
                    reply == Reply(200, true, "Username changed successfully!") &&
                    users == old(users)[i := u.(name := newUsername, resetOtp := "", resetOtpExpireAt := Null)]
    {
      if Strings.IsBlank(email) || Strings.IsBlank(otp) || Strings.IsBlank(newUsername) {
        return Reply(400, false, "All fields are required and cannot be empty");
      }
      var found := FindByEmail(users, email);
      if found.None? {
        return Reply(404, false, "User not found with this email");
      }
      var i := found.value;
      var u := users[i];
      if u.resetOtp == "" {
        return Reply(400, false, "No OTP was generated for this account");
      }
      if u.resetOtp != otp {
        return Reply(400, false, "Invalid OTP entered");
      }
      if AsNumber(u.resetOtpExpireAt) < now {
        return Reply(400, false, "OTP has expired. Please request a new one");
      }
      if u.name == newUsername {
        return Reply(400, false, "New username cannot be same as current username");
      }
      users := users[i := u.(name := newUsername, resetOtp := "", resetOtpExpireAt := Null)];
      reply := Reply(200, true, "Username changed successfully!");
    }
  }
}
