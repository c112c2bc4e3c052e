/** Order facts about products and quotients of reals. */
module RealArithmetic {
  /** A product kept as a term, so that sums of products stay linear for the verifier. */
  function Times(a: real, b: real): real { a * b }

  lemma SquareNonNegative(a: real)
    ensures a * a >= 0.0
  {}

  lemma TwoProducts(a: real, b: real)
    ensures 2.0 * Times(a, b) <= Times(a, a) + Times(b, b)
    ensures -2.0 * Times(a, b) <= Times(a, a) + Times(b, b)
    ensures Times(a, a) >= 0.0
  {
    SquareNonNegative(a);
    SquareNonNegative(a - b);
    SquareNonNegative(a + b);
    assert (a - b) * (a - b) == a * a + b * b - 2.0 * (a * b);
    assert (a + b) * (a + b) == a * a + b * b + 2.0 * (a * b);
  }

  /** Multiplying by a positive number keeps the order, in both directions. */
  lemma ScalingKeepsOrder(c: real, a: real, b: real)
    requires c > 0.0
    ensures Times(c, a) <= Times(c, b) <==> a <= b
    ensures Times(c, a) < Times(c, b) <==> a < b
  {}

  lemma TimesZero(c: real)
    ensures Times(c, 0.0) == 0.0
  {}

  /** A quotient compared with a bound, for a positive denominator. */
  lemma QuotientBounds(a: real, b: real, lo: real)
    requires b > 0.0
    ensures lo <= a / b <==> b * lo <= a
    ensures a / b <= lo <==> a <= b * lo
    ensures lo < a / b <==> b * lo < a
  {}

  lemma ScaledRatio(c: real, a: real, b: real)
    requires c > 0.0 && b > 0.0
    ensures Times(c, b) > 0.0 && Times(c, a) / Times(c, b) == a / b
  {}
}
