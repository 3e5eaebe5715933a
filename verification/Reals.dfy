/** Products and quotients of real numbers, one step at a time. */
module Reals {

  lemma ProductNonNegative(x: real, y: real)
    requires x >= 0.0 && y >= 0.0
    ensures x * y >= 0.0
  {
  }

  lemma ProductPositive(x: real, y: real)
    requires x > 0.0 && y > 0.0
    ensures x * y > 0.0
  {
  }

  /** Scaling by at most one does not enlarge. */
  lemma ScaledDown(x: real, q: real)
    requires x > 0.0 && 0.0 < q <= 1.0
    ensures 0.0 < x * q <= x
  {
    ProductPositive(x, q);
    ProductNonNegative(x, 1.0 - q);
    assert x * (1.0 - q) == x - x * q;
  }

  lemma Cancel(x: real, y: real, p: real)
    requires p > 0.0 && x * p >= y * p
    ensures x >= y
  {
    assert (y - x) * p == y * p - x * p;
    if y > x {
      ProductPositive(y - x, p);
    }
  }

  lemma Quotient(part: real, whole: real)
    requires whole > 0.0
    ensures part / whole * whole == part
  {
  }

  lemma QuotientBounded(x: real, y: real)
    requires y > 0.0 && -y <= x <= y
    ensures -1.0 <= x / y <= 1.0
  {
    Quotient(x, y);
    Cancel(1.0, x / y, y);
    Cancel(x / y, -1.0, y);
  }

  lemma QuotientIsOne(x: real, y: real)
    requires y > 0.0
    ensures x / y == 1.0 <==> x == y
  {
    Quotient(x, y);
  }

  /** A larger divisor gives a smaller quotient. */
  lemma QuotientFalls(part: real, whole: real, more: real)
    requires part >= 0.0 && 0.0 < whole <= more
    ensures 0.0 <= part / more <= part / whole
  {
    var before, after := part / whole, part / more;
    Quotient(part, whole);
    Quotient(part, more);
    Cancel(after, 0.0, more);
    ProductNonNegative(after, more - whole);
    assert after * (more - whole) == after * more - after * whole;
    Cancel(before, after, whole);
  }

  lemma ShareInUnit(part: real, whole: real)
    requires 0.0 <= part <= whole && whole > 0.0
    ensures 0.0 <= part / whole <= 1.0
  {
    QuotientBounded(part, whole);
    QuotientFalls(part, whole, whole);
  }

  lemma Scale(x: real, y: real, m: real)
    requires m > 0.0
    ensures x > y <==> x * m > y * m
  {
    assert (x - y) * m == x * m - y * m;
    if x > y {
      ProductPositive(x - y, m);
    } else {
      ProductNonNegative(y - x, m);
      assert (y - x) * m == y * m - x * m;
    }
  }

  /** A fraction times a multiple of its denominator. */
  lemma Cleared(part: real, whole: real, m: real)
    requires whole > 0.0
    ensures part / whole * (whole * m) == part * m
  {
    Quotient(part, whole);
    assert part / whole * (whole * m) == part / whole * whole * m;
  }
}
