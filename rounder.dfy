/** Magnitude-adaptive rounding (`units.round`): more decimal digits are kept
    the smaller the value is. */
module Rounder {
  import opened Values

  /** Number of decimal digits kept: one from 100 up, two from 1 up, three below 1
      (negative values included). */
  function Digits(v: real): (d: nat)
    ensures 1 <= d <= 3
    ensures d == 1 <==> v >= 100.0
    ensures d == 3 <==> v < 1.0
  {
    if v >= 100.0 then 1 else if v >= 1.0 then 2 else 3
  }

  /** `Math.pow(10, digits)`. */
  function Multiplier(v: real): (m: real)
    ensures m == Pow(10.0, Digits(v))
    ensures m == (if v >= 100.0 then 10.0 else if v >= 1.0 then 100.0 else 1000.0)
  {
    Pow(10.0, Digits(v))
  }

  /** `x` is a whole number. */
  predicate IsIntegral(x: real) {
    x.Floor as real == x
  }

  /** JavaScript's `Math.round`: the nearest integer, halves rounded up. */
  function MathRound(x: real): (n: int)
    ensures x - 0.5 < n as real <= x + 0.5
  {
    (x + 0.5).Floor
  }

  /** `x` rounded to the nearest multiple of 1/m, halves up. */
  predicate RoundsTo(x: real, r: real, m: real) {
    IsIntegral(r * m) && x * m - 0.5 < r * m <= x * m + 0.5
  }

  /** `round`: a non-finite value becomes 0; otherwise the value is rounded to
      the nearest multiple of 1/m, halves up, where m is the multiplier for its
      magnitude (10, 100 or 1000). */
  function Round(n: Num): (r: real)
    ensures !IsFinite(n) ==> r == 0.0
    ensures IsFinite(n) && n.r >= 100.0 ==> RoundsTo(n.r, r, 10.0)
    ensures IsFinite(n) && 1.0 <= n.r < 100.0 ==> RoundsTo(n.r, r, 100.0)
    ensures IsFinite(n) && n.r < 1.0 ==> RoundsTo(n.r, r, 1000.0)
  {
    if !IsFinite(n) then 0.0
    else
      var m := Multiplier(n.r);
      if m == 10.0 then MathRound(n.r * 10.0) as real / 10.0
      else if m == 100.0 then MathRound(n.r * 100.0) as real / 100.0
      else MathRound(n.r * 1000.0) as real / 1000.0
  }

  /** The rounding conditions pin the result down: any multiple of 1/m within
      half a step (halves up) of the value is the rounded value. */
  lemma RoundUnique(v: real, r: real)
    requires RoundsTo(v, r, Multiplier(v))
    ensures Round(Finite(v)) == r
  {
    var r0 := Round(Finite(v));
    if v >= 100.0 {
      IntegralClose(r * 10.0, r0 * 10.0);
    } else if v >= 1.0 {
      IntegralClose(r * 100.0, r0 * 100.0);
    } else {
      IntegralClose(r * 1000.0, r0 * 1000.0);
    }
  }

  /** Two whole numbers less than one apart are equal. */
  lemma IntegralClose(p: real, q: real)
    requires IsIntegral(p) && IsIntegral(q) && p - 1.0 < q < p + 1.0
    ensures p == q
  {
    var a, b := p.Floor, q.Floor;
    assert a as real == p && b as real == q;
    assert a - 1 < b < a + 1;
  }

  /** Worked examples: one digit from 100 up, two from 1 up, three below 1,
      halves rounded up also for negatives, and 0 for infinity. */
  lemma RoundOneDigit()
    ensures Round(Finite(150.44)) == 150.4
  {
    assert (1504.0).Floor == 1504;
    RoundUnique(150.44, 150.4);
  }

  lemma RoundTwoDigits()
    ensures Round(Finite(1.2345)) == 1.23
  {
    assert (123.0).Floor == 123;
    RoundUnique(1.2345, 1.23);
  }

  lemma RoundThreeDigits()
    ensures Round(Finite(0.12345)) == 0.123
    ensures Round(Finite(-1.2345)) == -1.234
  {
    assert (123.0).Floor == 123;
    RoundUnique(0.12345, 0.123);
    assert (-1234.0).Floor == -1234;
    RoundUnique(-1.2345, -1.234);
  }

  /** Rounding can carry a value up to the next magnitude. */
  lemma RoundCarries()
    ensures Round(Finite(999.96)) == 1000.0
    ensures Round(PosInf) == 0.0
  {
    assert (10000.0).Floor == 10000;
    RoundUnique(999.96, 1000.0);
  }
}
