/**
 Facts about integer division by a variable, which the solver does not find by itself.
 */
module Division {

  lemma MultiplyMonotone(a: int, b: int, d: int)
    requires a <= b && d >= 0
    ensures a * d <= b * d
  {
  }

  lemma QuotientBounds(a: int, d: int)
    requires d > 0
    ensures a / d * d <= a < (a / d + 1) * d
  {
    assert a == a / d * d + a % d;
    assert (a / d + 1) * d == a / d * d + d;
  }

  /** The quotient is the largest integer whose multiple fits. */
  lemma QuotientAtLeast(a: int, d: int, q: int)
    requires d > 0 && q * d <= a
    ensures q <= a / d
  {
    QuotientBounds(a, d);
    if q > a / d {
      MultiplyMonotone(a / d + 1, q, d);
    }
  }

  lemma QuotientIs(a: int, d: int, q: int)
    requires d > 0 && q * d <= a < (q + 1) * d
    ensures a / d == q
  {
    QuotientAtLeast(a, d, q);
    QuotientBounds(a, d);
    if a / d > q {
      MultiplyMonotone(q + 1, a / d, d);
    }
  }

  lemma QuotientMonotone(a: int, b: int, d: int)
    requires d > 0 && a <= b
    ensures a / d <= b / d
  {
    QuotientBounds(a, d);
    QuotientAtLeast(b, d, a / d);
  }

  lemma QuotientOfProduct(a: int, d: int)
    requires d > 0
    ensures a * d / d == a
  {
    assert (a + 1) * d == a * d + d;
    QuotientIs(a * d, d, a);
  }

  lemma QuotientOfSum(a: int, b: int, d: int)
    requires d > 0
    ensures a / d + b / d <= (a + b) / d
  {
    QuotientBounds(a, d);
    QuotientBounds(b, d);
    assert (a / d + b / d) * d == a / d * d + b / d * d;
    QuotientAtLeast(a + b, d, a / d + b / d);
  }
}
