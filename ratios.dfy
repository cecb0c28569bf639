/** Facts about exact rational quotients, used wherever the detector
    compares a Python float ratio with a constant. */
module Ratios {

  lemma ProductPositive(a: real, b: real)
    requires a > 0.0 && b > 0.0
    ensures a * b > 0.0
  {
  }

  /** A quotient by a positive divisor compares with `c` as its dividend
      compares with `c` times the divisor. */
  lemma QuotientOrder(x: real, d: real, c: real)
    requires d > 0.0
    ensures x / d > c <==> x > c * d
    ensures x / d < c <==> x < c * d
  {
    var q := x / d;
    assert q * d == x;
    if q > c {
      ProductPositive(q - c, d);
      assert (q - c) * d == x - c * d;
    } else if q < c {
      ProductPositive(c - q, d);
      assert (c - q) * d == c * d - x;
    } else {
      assert q == c;
    }
  }
}
