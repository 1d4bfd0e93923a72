/** Text operations the request stores and the selectors rely on: the
    ASCII case folding MongoDB's `$toLower` and a case-insensitive regex
    apply, the code-point order in which MongoDB compares string-valued dates,
    and JavaScript's notion of a blank (all-whitespace) string. */
module Strings {

  function LowerChar(c: char): char {
    if 'A' <= c <= 'Z' then (c as int + 32) as char else c
  }

  /** `$toLower` on ASCII text. */
  function Lower(s: string): (r: string)
    ensures |r| == |s|
    ensures forall i :: 0 <= i < |s| ==> r[i] == LowerChar(s[i])
  {
    seq(|s|, i requires 0 <= i < |s| => LowerChar(s[i]))
  }

  /** Two strings that differ at most in the case of ASCII letters. */
  predicate EqualsIgnoreCase(a: string, b: string) {
    Lower(a) == Lower(b)
  }

  /** Lower-casing is idempotent, so a lower-cased status is its own bucket key. */
  lemma LowerIdempotent(s: string)
    ensures Lower(Lower(s)) == Lower(s)
  {
  }

  /** Case-insensitive equality is an equivalence relation. */
  lemma EqualsIgnoreCaseEquivalence(a: string, b: string, c: string)
    ensures EqualsIgnoreCase(a, a)
    ensures EqualsIgnoreCase(a, b) ==> EqualsIgnoreCase(b, a)
    ensures EqualsIgnoreCase(a, b) && EqualsIgnoreCase(b, c) ==> EqualsIgnoreCase(a, c)
  {
  }

  /** String order as MongoDB's `$gte` and `$lte` apply it to strings
      (UTF-8 bytes, which is code-point order): element by element, a
      proper prefix first. */
  predicate LexLe(a: string, b: string) {
    |a| == 0 || (|b| > 0 && (a[0] < b[0] || (a[0] == b[0] && LexLe(a[1..], b[1..]))))
  }

  lemma {:induction false} LexLeReflexive(a: string)
    ensures LexLe(a, a)
  {
    if |a| > 0 {
      LexLeReflexive(a[1..]);
    }
  }

  lemma {:induction false} LexLeTotal(a: string, b: string)
    ensures LexLe(a, b) || LexLe(b, a)
  {
    if |a| > 0 && |b| > 0 && a[0] == b[0] {
      LexLeTotal(a[1..], b[1..]);
    }
  }

  lemma {:induction false} LexLeAntisymmetric(a: string, b: string)
    requires LexLe(a, b) && LexLe(b, a)
    ensures a == b
  {
    if |a| > 0 && |b| > 0 {
      LexLeAntisymmetric(a[1..], b[1..]);
      assert a == [a[0]] + a[1..] && b == [b[0]] + b[1..];
    }
  }

  lemma {:induction false} LexLeTransitive(a: string, b: string, c: string)
    requires LexLe(a, b) && LexLe(b, c)
    ensures LexLe(a, c)
  {
    if |a| > 0 && a[0] == b[0] && b[0] == c[0] {
      LexLeTransitive(a[1..], b[1..], c[1..]);
    }
  }

  /** Past a common prefix, the order is decided by what follows it. */
  lemma {:induction false} LexLeAfterCommonPrefix(a: string, b: string, k: nat)
    requires k <= |a| && k <= |b| && a[..k] == b[..k]
    ensures LexLe(a, b) <==> LexLe(a[k..], b[k..])
  {
    if k > 0 {
      assert a[0] == a[..k][0] && b[0] == b[..k][0];
      assert a[1..][..k - 1] == a[1..k] == b[1..k] == b[1..][..k - 1];
      LexLeAfterCommonPrefix(a[1..], b[1..], k - 1);
      assert a[1..][k - 1..] == a[k..] && b[1..][k - 1..] == b[k..];
    }
  }

  predicate IsDigit(c: char) {
    '0' <= c <= '9'
  }

  function DigitValue(c: char): nat
    requires IsDigit(c)
  {
    c as int - '0' as int
  }

  function Pow10(n: nat): (r: nat)
    ensures r >= 1
  {
    if n == 0 then 1 else 10 * Pow10(n - 1)
  }

  function DigitCount(s: string): nat {
    if |s| == 0 then 0 else (if IsDigit(s[0]) then 1 else 0) + DigitCount(s[1..])
  }

  /** The number spelled by the digits of `s`, the other characters skipped:
      20261016 for "2026-10-16". */
  function DigitsValue(s: string): nat {
    if |s| == 0 then 0
    else if IsDigit(s[0]) then DigitValue(s[0]) * Pow10(DigitCount(s[1..])) + DigitsValue(s[1..])
    else DigitsValue(s[1..])
  }

  lemma MulMonotone(x: nat, y: nat, p: nat)
    requires x <= y
    ensures x * p <= y * p
  {
    var d := y - x;
    assert y * p == x * p + d * p;
  }

  lemma {:induction false} DigitsValueBound(s: string)
    ensures DigitsValue(s) < Pow10(DigitCount(s))
  {
    if |s| > 0 {
      DigitsValueBound(s[1..]);
      if IsDigit(s[0]) {
        var p := Pow10(DigitCount(s[1..]));
        MulMonotone(DigitValue(s[0]), 9, p);
        assert DigitCount(s) == 1 + DigitCount(s[1..]);
        assert Pow10(DigitCount(s)) == 10 * p;
      }
    }
  }

  /** Two strings with digits in the same places and equal characters
      everywhere else, like two dates in one fixed format. */
  predicate SameShape(a: string, b: string) {
    |a| == |b| &&
    forall i :: 0 <= i < |a| ==> (IsDigit(a[i]) <==> IsDigit(b[i])) && (!IsDigit(a[i]) ==> a[i] == b[i])
  }

  lemma {:induction false} SameShapeDigitCount(a: string, b: string)
    requires SameShape(a, b)
    ensures DigitCount(a) == DigitCount(b)
  {
    if |a| > 0 {
      assert SameShape(a[1..], b[1..]) by {
        forall i | 0 <= i < |a| - 1
          ensures (IsDigit(a[1..][i]) <==> IsDigit(b[1..][i])) && (!IsDigit(a[1..][i]) ==> a[1..][i] == b[1..][i])
        {
          assert a[1..][i] == a[i + 1] && b[1..][i] == b[i + 1];
        }
      }
      SameShapeDigitCount(a[1..], b[1..]);
    }
  }

  /** For strings of one fixed digit layout, string order is numeric order
      of the digits they spell. */
  lemma {:induction false} SameShapeOrder(a: string, b: string)
    requires SameShape(a, b)
    ensures LexLe(a, b) <==> DigitsValue(a) <= DigitsValue(b)
  {
    if |a| > 0 {
      assert SameShape(a[1..], b[1..]) by {
        forall i | 0 <= i < |a| - 1
          ensures (IsDigit(a[1..][i]) <==> IsDigit(b[1..][i])) && (!IsDigit(a[1..][i]) ==> a[1..][i] == b[1..][i])
        {
          assert a[1..][i] == a[i + 1] && b[1..][i] == b[i + 1];
        }
      }
      SameShapeDigitCount(a[1..], b[1..]);
      var p := Pow10(DigitCount(a[1..]));
      if a[0] == b[0] {
        SameShapeOrder(a[1..], b[1..]);
      } else {
        assert IsDigit(a[0]) && IsDigit(b[0]);
        DigitsValueBound(a[1..]);
        DigitsValueBound(b[1..]);
        if a[0] < b[0] {
          LeadingDigitDecides(a, b, p);
        } else {
          LeadingDigitDecides(b, a, p);
        }
      }
    }
  }

  /** Where two same-shape strings first differ, in a digit, that digit
      decides their numeric order. */
  lemma LeadingDigitDecides(a: string, b: string, p: nat)
    requires |a| > 0 && |b| > 0 && IsDigit(a[0]) && IsDigit(b[0]) && a[0] < b[0]
    requires p == Pow10(DigitCount(a[1..])) == Pow10(DigitCount(b[1..]))
    requires DigitsValue(a[1..]) < p && DigitsValue(b[1..]) < p
    ensures DigitsValue(a) < DigitsValue(b)
  {
    LeadingTermDecides(DigitValue(a[0]), DigitValue(b[0]), p, DigitsValue(a[1..]), DigitsValue(b[1..]));
  }

  lemma LeadingTermDecides(da: nat, db: nat, p: nat, ra: nat, rb: nat)
    requires da < db && ra < p && rb < p
    ensures da * p + ra < db * p + rb
  {
    MulMonotone(da + 1, db, p);
    assert (da + 1) * p == da * p + p;
  }

  /** A calendar day written `YYYY-MM-DD`, as `toISOString().split('T')[0]` writes it. */
  predicate IsDayString(s: string) {
    |s| == 10 && s[4] == '-' && s[7] == '-' &&
    forall i :: 0 <= i < 10 && i != 4 && i != 7 ==> IsDigit(s[i])
  }

  /** Year, month and day as one number: 20261016 for "2026-10-16". */
  function DayKey(s: string): nat
    requires IsDayString(s)
  {
    DigitsValue(s)
  }

  /** Comparing `YYYY-MM-DD` strings as strings orders them by date. */
  lemma DayStringsCompareAsDates(a: string, b: string)
    requires IsDayString(a) && IsDayString(b)
    ensures LexLe(a, b) <==> DayKey(a) <= DayKey(b)
  {
    SameShapeOrder(a, b);
  }

  /** The characters String.prototype.trim removes: white space and line terminators. */
  predicate IsJsWhitespace(c: char) {
    c == ' ' || c == '\t' || c == '\n' || c == '\U{000B}' || c == '\U{000C}' || c == '\r' ||
    c == '\U{00A0}' || c == '\U{1680}' || ('\U{2000}' <= c <= '\U{200A}') ||
    c == '\U{2028}' || c == '\U{2029}' || c == '\U{202F}' || c == '\U{205F}' ||
    c == '\U{3000}' || c == '\U{FEFF}'
  }

  predicate AllWhitespace(s: string) {
    forall i :: 0 <= i < |s| ==> IsJsWhitespace(s[i])
  }

  /** The leading-whitespace half of `trim`. */
  function TrimStart(s: string): (r: string)
    ensures r == [] <==> AllWhitespace(s)
    ensures r != [] ==> !IsJsWhitespace(r[0])
  {
    if s != [] && IsJsWhitespace(s[0]) then
      var r := TrimStart(s[1..]);
      assert forall i :: 0 <= i < |s[1..]| ==> s[1..][i] == s[i + 1];
      r
    else s
  }

  /** The trailing-whitespace half of `trim`. */
  function TrimEnd(s: string): (r: string)
    ensures r == [] <==> AllWhitespace(s)
    ensures r != [] ==> r[0] == s[0]
  {
    if s != [] && IsJsWhitespace(s[|s| - 1]) then
      var r := TrimEnd(s[..|s| - 1]);
      assert forall i :: 0 <= i < |s| - 1 ==> s[..|s| - 1][i] == s[i];
      r
    else s
  }

  /** `String.prototype.trim`. */
  function Trim(s: string): string {
    TrimEnd(TrimStart(s))
  }

  /** `!s?.trim()`: the string trims to "" (an absent field is modelled as
      ""), which is to say it has no character other than white space. */
  predicate IsBlank(s: string): (b: bool)
    ensures b <==> AllWhitespace(s)
  {
    Trim(s) == ""
  }
}
