/** Decimal digits of natural numbers, as Python renders and counts them. */
module Decimal {

  function Pow10(n: nat): (r: nat)
    ensures r >= 1
  {
    if n == 0 then 1 else 10 * Pow10(n - 1)
  }

  predicate IsDigit(c: char) {
    '0' <= c <= '9'
  }

  predicate AllDigits(s: string) {
    forall i :: 0 <= i < |s| ==> IsDigit(s[i])
  }

  function DigitChar(d: nat): (c: char)
    requires d < 10
    ensures IsDigit(c)
  {
    (48 + d) as char
  }

  function DigitValue(c: char): (d: nat)
    requires IsDigit(c)
    ensures d < 10 && DigitChar(d) == c
  {
    c as int - 48
  }

  /** The number of decimal digits of `n`; 0 has none. */
  function DecimalLength(n: nat): (d: nat)
    ensures d == 0 <==> n == 0
    ensures n < Pow10(d)
    ensures d > 0 ==> Pow10(d - 1) <= n
  {
    if n == 0 then 0 else 1 + DecimalLength(n / 10)
  }

  /** Python's rendering of a natural number in decimal (`str(n)`). */
  function DecimalString(n: nat): (s: string)
    ensures |s| > 0 && AllDigits(s)
  {
    if n < 10 then [DigitChar(n)] else DecimalString(n / 10) + [DigitChar(n % 10)]
  }

  /** Reading the rendering back gives the number. */
  lemma {:induction false} ValueOfDecimalString(n: nat)
    ensures Value(DecimalString(n)) == n
  {
    var s := DecimalString(n);
    if n < 10 {
      assert s[..0] == [];
    } else {
      ValueOfDecimalString(n / 10);
      assert s[..|s| - 1] == DecimalString(n / 10);
      assert DigitValue(s[|s| - 1]) == n % 10;
    }
  }

  /** The last `w` decimal digits of `n`, with leading zeros. */
  function ZeroPadded(n: nat, w: nat): (s: string)
    ensures |s| == w && AllDigits(s)
  {
    if w == 0 then [] else ZeroPadded(n / 10, w - 1) + [DigitChar(n % 10)]
  }

  /** The number a string of decimal digits denotes. */
  function Value(s: string): nat
    requires AllDigits(s)
  {
    if s == [] then 0 else 10 * Value(s[..|s| - 1]) + DigitValue(s[|s| - 1])
  }

  lemma Pow10Monotone(m: nat, n: nat)
    requires m <= n
    ensures Pow10(m) <= Pow10(n)
  {
  }

  /** Padding to `w` digits loses nothing when `n` has at most `w` digits. */
  lemma {:induction false} ValueOfZeroPadded(n: nat, w: nat)
    requires n < Pow10(w)
    ensures Value(ZeroPadded(n, w)) == n
  {
    if w > 0 {
      ValueOfZeroPadded(n / 10, w - 1);
      var s := ZeroPadded(n, w);
      assert s[..|s| - 1] == ZeroPadded(n / 10, w - 1);
    }
  }

  /** A leading digit in front of `w` digits: rendering `lead * 10^w + n` gives the lead digit
      followed by `n` padded to `w` digits. */
  lemma {:induction false} LeadingDigit(lead: nat, n: nat, w: nat)
    requires 1 <= lead <= 9 && n < Pow10(w)
    ensures DecimalString(lead * Pow10(w) + n) == [DigitChar(lead)] + ZeroPadded(n, w)
  {
    if w > 0 {
      var p := Pow10(w - 1);
      var m := lead * Pow10(w) + n;
      assert lead * Pow10(w) == 10 * (lead * p);
      assert m == 10 * (lead * p + n / 10) + n % 10;
      assert m / 10 == lead * p + n / 10 && m % 10 == n % 10;
      assert m >= 10 by {
        assert lead * p >= 1;
      }
      LeadingDigit(lead, n / 10, w - 1);
    }
  }
}
