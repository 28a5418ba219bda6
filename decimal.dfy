/**
  Decimal digit strings: the fixed-width, zero-padded fields of an ISO 8601
  date, and JavaScript's `String(n)` for a non-negative integer.
 */
module Decimal {

  predicate IsDigit(c: char) {
    '0' <= c <= '9'
  }

  predicate AllDigits(s: string) {
    forall i :: 0 <= i < |s| ==> IsDigit(s[i])
  }

  function DigitChar(n: nat): (c: char)
    requires n < 10
    ensures IsDigit(c)
    ensures DigitValue(c) == n
  {
    (48 + n) as char
  }

  function DigitValue(c: char): nat
    requires IsDigit(c)
  {
    (c as int) - 48
  }

  function Pow10(w: nat): (p: nat)
    ensures p >= 1
  {
    if w == 0 then 1 else 10 * Pow10(w - 1)
  }

  /** The value of a string of decimal digits, most significant first. */
  function Value(s: string): nat
    requires AllDigits(s)
  {
    if s == [] then 0 else 10 * Value(s[..|s| - 1]) + DigitValue(s[|s| - 1])
  }

  /** `n` written with exactly `w` digits, padded on the left with zeros. */
  function Padded(n: nat, w: nat): (s: string)
    requires n < Pow10(w)
    ensures |s| == w
    ensures AllDigits(s)
  {
    if w == 0 then [] else Padded(n / 10, w - 1) + [DigitChar(n % 10)]
  }

  /** `String(n)` for a non-negative integer: no sign and no leading zero. */
  function NumberString(n: nat): (s: string)
    ensures |s| >= 1 && AllDigits(s)
    ensures s[0] == '0' ==> n == 0
  {
    if n < 10 then [DigitChar(n)] else NumberString(n / 10) + [DigitChar(n % 10)]
  }

  /** Reading back a zero-padded field gives the number that was written. */
  lemma {:induction false} ValueOfPadded(n: nat, w: nat)
    requires n < Pow10(w)
    ensures Value(Padded(n, w)) == n
  {
    if w > 0 {
      var s := Padded(n, w);
      ValueOfPadded(n / 10, w - 1);
      assert s[..|s| - 1] == Padded(n / 10, w - 1);
    }
  }

  /** Reading back `String(n)` gives `n`. */
  lemma {:induction false} ValueOfNumberString(n: nat)
    ensures Value(NumberString(n)) == n
  {
    if n >= 10 {
      var s := NumberString(n);
      ValueOfNumberString(n / 10);
      assert s[..|s| - 1] == NumberString(n / 10);
    }
  }

  /** Distinct counts are written as distinct strings. */
  lemma NumberStringInjective(a: nat, b: nat)
    ensures NumberString(a) == NumberString(b) <==> a == b
  {
    ValueOfNumberString(a);
    ValueOfNumberString(b);
  }
}
