/** Decimal renderings of integers, as produced by JavaScript's
    `Number.prototype.toString()` on safe integers and by template literals,
    together with a parser that undoes them. */
module Decimal {
  import opened Wrappers

  predicate IsDigit(c: char) {
    '0' <= c <= '9'
  }

  predicate AllDigits(s: string) {
    forall i :: 0 <= i < |s| ==> IsDigit(s[i])
  }

  function DigitChar(d: nat): (c: char)
    requires d < 10
    ensures IsDigit(c)
  {
    (('0' as int) + d) as char
  }

  function DigitValue(c: char): (d: nat)
    requires IsDigit(c)
    ensures d < 10
  {
    (c as int) - ('0' as int)
  }

  /** Canonical decimal rendering of a natural number: at least one digit,
      and no leading zero unless the number is zero. */
  function NatToDecimal(n: nat): (s: string)
    ensures |s| >= 1 && AllDigits(s)
    ensures s[0] == '0' ==> n == 0
    decreases n
  {
    if n < 10 then [DigitChar(n)] else NatToDecimal(n / 10) + [DigitChar(n % 10)]
  }

  /** Value of a string of digits read most-significant first. */
  function DigitsValue(s: string): nat
    requires AllDigits(s)
  {
    if |s| == 0 then 0 else DigitsValue(s[..|s| - 1]) * 10 + DigitValue(s[|s| - 1])
  }

  /** JavaScript rendering of an integer: a `-` sign before the digits of its
      magnitude when negative. */
  function IntToDecimal(i: int): string {
    if i < 0 then "-" + NatToDecimal(-i) else NatToDecimal(i)
  }

  /** Reads back an optional `-` followed by at least one digit. */
  function ParseInt(s: string): (r: Option<int>)
    ensures r.Some? ==> |s| >= 1
  {
    if |s| >= 2 && s[0] == '-' && AllDigits(s[1..]) then Some(-(DigitsValue(s[1..]) as int))
    else if |s| >= 1 && AllDigits(s) then Some(DigitsValue(s))
    else None
  }

  lemma {:induction false} NatRoundTrip(n: nat)
    ensures DigitsValue(NatToDecimal(n)) == n
    decreases n
  {
    if n >= 10 {
      var s := NatToDecimal(n);
      NatRoundTrip(n / 10);
      assert s[..|s| - 1] == NatToDecimal(n / 10);
    }
  }

  /** Parsing inverts rendering, for every integer. */
  lemma IntRoundTrip(i: int)
    ensures ParseInt(IntToDecimal(i)) == Some(i)
  {
    NatRoundTrip(if i < 0 then -i else i);
    ParseRendering(i, NatToDecimal(if i < 0 then -i else i));
  }

  /** The rendering of `i` from the digits `d` of its magnitude reads back
      as the sign of `i` applied to the value of `d`. */
  lemma ParseRendering(i: int, d: string)
    requires d == NatToDecimal(if i < 0 then -i else i)
    ensures ParseInt(IntToDecimal(i)) == Some(if i < 0 then -(DigitsValue(d) as int) else DigitsValue(d))
  {
    if i < 0 {
      assert IntToDecimal(i) == "-" + d;
      assert ("-" + d)[1..] == d;
    } else {
      assert IsDigit(d[0]);
    }
  }

  /** Distinct integers have distinct renderings. */
  lemma IntToDecimalInjective(a: int, b: int)
    ensures IntToDecimal(a) == IntToDecimal(b) <==> a == b
  {
    if IntToDecimal(a) == IntToDecimal(b) {
      IntRoundTrip(a);
      IntRoundTrip(b);
    }
  }

  /** A rendering is a non-negative delay in digits exactly when the number
      is not negative. */
  lemma IntToDecimalAllDigits(i: int)
    ensures |IntToDecimal(i)| >= 1
    ensures AllDigits(IntToDecimal(i)) <==> i >= 0
  {
    if i < 0 {
      assert !IsDigit(IntToDecimal(i)[0]);
    }
  }
}
