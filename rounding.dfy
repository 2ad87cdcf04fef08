/**
 * Rounding of an exact ratio `p / q` to an integer. JavaScript `Math.round`
 * rounds halves up (towards positive infinity); Python 3 `round` rounds halves
 * to the even neighbour. Both are modelled on exact rationals.
 */
module Rounding {

  /** JavaScript `Math.round(p / q)`: the nearest integer, a half rounded up. */
  function RoundHalfUp(p: int, q: int): (r: int)
    requires q > 0
    ensures 2 * q * r - q <= 2 * p < 2 * q * r + q
  {
    var x := 2 * p + q;
    var d := 2 * q;
    assert x == d * (x / d) + x % d;
    (2 * p + q) / (2 * q)
  }

  /** Python `round(p / q)`: the nearest integer, a half rounded to the even one. */
  function RoundHalfEven(p: int, q: int): (r: int)
    requires q > 0
    ensures 2 * q * r - q <= 2 * p <= 2 * q * r + q
    ensures (2 * p == 2 * q * r - q || 2 * p == 2 * q * r + q) ==> r % 2 == 0
  {
    var fl := p / q;
    var rem := p % q;
    var base := q * fl;
    assert p == base + rem && 0 <= rem < q;
    assert 2 * q * fl == 2 * base;
    assert 2 * q * (fl + 1) == 2 * base + 2 * q;
    if 2 * rem < q || (2 * rem == q && fl % 2 == 0) then fl else fl + 1
  }

  /** A positive multiple of a positive number is at least that number. */
  lemma MulBelowOne(q: int, x: int)
    requires q > 0
    ensures q * x < q ==> x < 1
  {
    if x >= 1 {
      assert q * x == q + q * (x - 1);
      assert q * (x - 1) >= 0;
    }
  }

  /** Cancelling a positive factor: `q * a < q * b + q` means `a <= b`. */
  lemma MulCancel(q: int, a: int, b: int)
    requires q > 0 && q * a < q * b + q
    ensures a <= b
  {
    MulBelowOne(q, a - b);
    assert q * (a - b) == q * a - q * b;
  }

  /** Rounding a ratio between `lo` and `hi` (with `q` as denominator) stays between them. */
  lemma RoundHalfEvenWithin(p: int, q: int, lo: int, hi: int)
    requires q > 0 && q * lo <= p <= q * hi
    ensures lo <= RoundHalfEven(p, q) <= hi
  {
    var r := RoundHalfEven(p, q);
    assert 2 * q * r == 2 * (q * r);
    MulCancel(q, r, hi);
    MulCancel(q, lo, r);
  }

  /** The same for JavaScript rounding. */
  lemma RoundHalfUpWithin(p: int, q: int, lo: int, hi: int)
    requires q > 0 && q * lo <= p <= q * hi
    ensures lo <= RoundHalfUp(p, q) <= hi
  {
    var r := RoundHalfUp(p, q);
    assert 2 * q * r == 2 * (q * r);
    MulCancel(q, r, hi);
    MulCancel(q, lo, r);
  }

  /** A larger ratio never rounds lower. */
  lemma RoundHalfUpMonotone(p1: int, p2: int, q: int)
    requires q > 0 && p1 <= p2
    ensures RoundHalfUp(p1, q) <= RoundHalfUp(p2, q)
  {
    var r1 := RoundHalfUp(p1, q);
    var r2 := RoundHalfUp(p2, q);
    assert 2 * q * r1 == 2 * (q * r1) && 2 * q * r2 == 2 * (q * r2);
    MulCancel(q, r1, r2);
  }

  /** An exact ratio is its own rounding under either rule. */
  lemma RoundExact(a: int, q: int)
    requires q > 0
    ensures RoundHalfEven(a * q, q) == a
    ensures RoundHalfUp(a * q, q) == a
  {
    RoundHalfEvenWithin(a * q, q, a, a);
    RoundHalfUpWithin(a * q, q, a, a);
  }

  /** The two rules differ on halves: 2.5 rounds to 3 in JavaScript and to 2 in Python. */
  lemma RulesDifferOnHalves()
    ensures RoundHalfUp(5, 2) == 3 && RoundHalfEven(5, 2) == 2
  {
  }
}
