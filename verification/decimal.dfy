/**
  Decimal rendering of integers, as used for the shots label (the text of
  an `int` in base ten, with a leading '-' for negative values), together
  with the matching parser so that the rendering can be shown lossless.
 */
module Decimal {

  predicate IsDigit(c: char) {
    '0' <= c <= '9'
  }

  predicate AllDigits(s: string) {
    forall i :: 0 <= i < |s| ==> IsDigit(s[i])
  }

  function DigitChar(d: int): (c: char)
    requires 0 <= d < 10
    ensures IsDigit(c) && c as int - '0' as int == d
  {
    ('0' as int + d) as char
  }

  /** The base-ten digits of `n`, most significant first, without leading zeros. */
  function FromNat(n: nat): (s: string)
    ensures |s| >= 1 && AllDigits(s)
    ensures s[0] == '0' ==> n == 0
    ensures n < 10 <==> |s| == 1
  {
    if n < 10 then [DigitChar(n)] else FromNat(n / 10) + [DigitChar(n % 10)]
  }

  /** The value of a string of digits (the empty string reads as 0). */
  function ValueOf(s: string): (n: nat)
    requires AllDigits(s)
  {
    if s == [] then 0 else ValueOf(s[..|s| - 1]) * 10 + (s[|s| - 1] as int - '0' as int)
  }

  /** Reading back the rendering of `n` gives `n`. */
  lemma {:induction false} FromNatRoundTrip(n: nat)
    ensures ValueOf(FromNat(n)) == n
  {
    if n >= 10 {
      var s := FromNat(n);
      assert s[..|s| - 1] == FromNat(n / 10);
      FromNatRoundTrip(n / 10);
    }
  }

  /** Text of an optional '-' followed by at least one digit. */
  predicate WellFormed(s: string) {
    s != [] && (if s[0] == '-' then |s| >= 2 && AllDigits(s[1..]) else AllDigits(s))
  }

  /** The decimal text of any integer. */
  function FromInt(i: int): (s: string)
    ensures WellFormed(s)
    ensures s[0] == '-' <==> i < 0
  {
    if i < 0 then "-" + FromNat(-i) else FromNat(i)
  }

  /** Reads text of the shape FromInt produces. */
  function ParseInt(s: string): (i: int)
    requires WellFormed(s)
  {
    if s[0] == '-' then 0 - ValueOf(s[1..]) else ValueOf(s)
  }

  /** Rendering an integer loses nothing: it parses back to the same integer. */
  lemma FromIntRoundTrip(i: int)
    ensures ParseInt(FromInt(i)) == i
  {
    if i < 0 {
      var digits := FromNat(-i);
      assert FromInt(i) == "-" + digits;
      assert FromInt(i)[1..] == digits;
      FromNatRoundTrip(-i);
    } else {
      FromNatRoundTrip(i);
    }
  }

  /** Distinct integers have distinct renderings. */
  lemma FromIntInjective(a: int, b: int)
    ensures FromInt(a) == FromInt(b) ==> a == b
  {
    FromIntRoundTrip(a);
    FromIntRoundTrip(b);
  }
}
