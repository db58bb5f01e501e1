/**
 * `Math.round(num / den)` on exact rationals. JavaScript's Math.round returns
 * the integer nearest to its argument and breaks ties upwards (towards
 * +infinity), that is floor(x + 1/2), which is what the components get when
 * they write `Math.round((a / b) * c)`.
 */
module Rounding {

  /** `Math.round(num / den)` for a positive denominator. */
  function RoundDiv(num: int, den: int): (r: int)
    requires den > 0
    ensures 2 * den * r <= 2 * num + den < 2 * den * (r + 1)
  {
    (2 * num + den) / (2 * den)
  }

  /** `Math.round(num / den)` for any non-zero denominator. */
  function RoundQuotient(num: int, den: int): (r: int)
    requires den != 0
    ensures den > 0 ==> 2 * den * r <= 2 * num + den < 2 * den * (r + 1)
    ensures den < 0 ==> 2 * -den * r <= 2 * -num - den < 2 * -den * (r + 1)
  {
    if den > 0 then RoundDiv(num, den) else RoundDiv(-num, -den)
  }

  /** Cancelling a positive factor from a strict inequality. */
  lemma CancelPositive(d: int, a: int, b: int)
    requires d > 0 && d * a < d * b
    ensures a < b
  {
    assert d * (b - a) > 0;
  }

  /** The rounded value is the only integer within one half of num / den. */
  lemma RoundDivUnique(num: int, den: int, k: int)
    requires den > 0
    requires 2 * den * k <= 2 * num + den < 2 * den * (k + 1)
    ensures RoundDiv(num, den) == k
  {
    var r := RoundDiv(num, den);
    CancelPositive(2 * den, r, k + 1);
    CancelPositive(2 * den, k, r + 1);
  }

  /** Rounding an exact multiple gives the multiplier back. */
  lemma RoundDivExact(k: int, den: int)
    requires den > 0
    ensures RoundDiv(k * den, den) == k
  {
    RoundDivUnique(k * den, den, k);
  }

  /** Rounding is monotone in the numerator. */
  lemma RoundDivMonotone(a: int, b: int, den: int)
    requires den > 0 && a <= b
    ensures RoundDiv(a, den) <= RoundDiv(b, den)
  {
    CancelPositive(2 * den, RoundDiv(a, den), RoundDiv(b, den) + 1);
  }

  /** A fraction of `scale` rounds into `[0, scale]`. */
  lemma RoundDivBetween(part: int, whole: int, scale: int)
    requires 0 <= part <= whole && whole > 0 && scale >= 0
    ensures 0 <= RoundDiv(scale * part, whole) <= scale
  {
    assert 0 <= scale * part <= scale * whole by {
      assert scale * (whole - part) >= 0;
    }
    RoundDivMonotone(0, scale * part, whole);
    RoundDivMonotone(scale * part, scale * whole, whole);
    RoundDivExact(0, whole);
    RoundDivExact(scale, whole);
  }

  /** A positive part of a positive whole is a fraction in (0, 1], and 1 for the whole. */
  lemma FractionAtMostOne(part: real, whole: real)
    requires 0.0 < part <= whole
    ensures 0.0 < part / whole <= 1.0
    ensures part == whole ==> part / whole == 1.0
  {
    var q := part / whole;
    assert q * whole == part;
    assert (1.0 - q) * whole == whole - part;
    SignOfProduct(1.0 - q, whole);
    SignOfProduct(q, whole);
  }

  /** A product with a positive factor has the sign of the other factor. */
  lemma SignOfProduct(a: real, b: real)
    requires b > 0.0
    ensures a * b >= 0.0 ==> a >= 0.0
    ensures a * b > 0.0 ==> a > 0.0
  {
  }
}
