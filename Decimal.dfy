/**
 * Decimal text of integers, as the standard streams write an `int` or an
 * `unsigned` (`output << n`), and the value of a run of decimal digits, as
 * `std::stoi` and `istream >> unsigned` read one. How a stream writes a
 * `double` is host formatting and is left as a parameter.
 */
module Decimal {

  /** How the output stream writes a `double`. */
  type DoubleFormat = real -> string

  predicate IsDigit(c: char) {
    '0' <= c <= '9'
  }

  predicate AllDigits(s: string) {
    forall i :: 0 <= i < |s| ==> IsDigit(s[i])
  }

  function DigitValue(c: char): (d: nat)
    requires IsDigit(c)
    ensures d < 10
  {
    (c as int) - ('0' as int)
  }

  function DigitChar(d: nat): (c: char)
    requires d < 10
    ensures IsDigit(c) && DigitValue(c) == d
  {
    (('0' as int) + d) as char
  }

  /** The number a run of decimal digits denotes, most significant first. */
  function DigitsValue(s: string): nat
    requires AllDigits(s)
  {
    if s == [] then 0 else DigitsValue(s[..|s| - 1]) * 10 + DigitValue(s[|s| - 1])
  }

  /** Canonical decimal text of a natural number: digits only, no leading zero. */
  function NatToDecimal(n: nat): (r: string)
    ensures |r| >= 1 && AllDigits(r)
    ensures |r| > 1 ==> r[0] != '0'
  {
    if n < 10 then [DigitChar(n)]
    else NatToDecimal(n / 10) + [DigitChar(n % 10)]
  }

  /** The decimal text of `n` denotes `n`. */
  lemma {:induction false} NatToDecimalValue(n: nat)
    ensures DigitsValue(NatToDecimal(n)) == n
  {
    if n >= 10 {
      var prefix := NatToDecimal(n / 10);
      NatToDecimalValue(n / 10);
      DigitsValueAppend(prefix, DigitChar(n % 10));
    }
  }

  /** Decimal text of an integer: a minus sign before the magnitude when negative. */
  function IntToDecimal(i: int): (r: string)
    ensures |r| >= 1 && (r[0] == '-' <==> i < 0)
  {
    if i < 0 then "-" + NatToDecimal(-i) else NatToDecimal(i)
  }

  /** Digit runs with the same value and no leading zeros are the same text. */
  lemma {:induction false} CanonicalDigitsUnique(s: string, t: string)
    requires AllDigits(s) && AllDigits(t) && |s| >= 1 && |t| >= 1
    requires |s| > 1 ==> s[0] != '0'
    requires |t| > 1 ==> t[0] != '0'
    requires DigitsValue(s) == DigitsValue(t)
    ensures s == t
  {
    if |s| == 1 && |t| == 1 {
    } else if |s| == 1 {
      LeadingNonZeroLowerBound(t);
    } else if |t| == 1 {
      LeadingNonZeroLowerBound(s);
    } else {
      var s', t' := s[..|s| - 1], t[..|t| - 1];
      assert DigitsValue(s') == DigitsValue(t');
      assert s'[0] == s[0] && t'[0] == t[0];
      CanonicalDigitsUnique(s', t');
      assert s == s' + [s[|s| - 1]] && t == t' + [t[|t| - 1]];
    }
  }

  /** A run of two or more digits without a leading zero denotes at least 10. */
  lemma {:induction false} LeadingNonZeroLowerBound(s: string)
    requires AllDigits(s) && |s| >= 2 && s[0] != '0'
    ensures DigitsValue(s) >= 10
  {
    var p := s[..|s| - 1];
    assert p[0] == s[0];
    if |p| >= 2 {
      LeadingNonZeroLowerBound(p);
    } else {
      assert p == [s[0]];
      assert DigitsValue(p) == DigitValue(s[0]) >= 1;
    }
  }

  /** Decimal text is injective: different numbers print differently. */
  lemma {:induction false} NatToDecimalInjective(m: nat, n: nat)
    requires NatToDecimal(m) == NatToDecimal(n)
    ensures m == n
  {
    NatToDecimalValue(m);
    NatToDecimalValue(n);
  }

  /** The value of digits followed by one more digit. */
  lemma DigitsValueAppend(s: string, c: char)
    requires AllDigits(s) && IsDigit(c)
    ensures AllDigits(s + [c]) && DigitsValue(s + [c]) == DigitsValue(s) * 10 + DigitValue(c)
  {
    assert (s + [c])[..|s + [c]| - 1] == s;
  }
}
