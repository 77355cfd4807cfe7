/** Small facts of real arithmetic. Each names its product or quotient, so that it stays linear for its callers. */
module Algebra {

  lemma ProductPositive(x: real, y: real, product: real)
    requires x > 0.0 && y > 0.0 && product == x * y
    ensures product > 0.0
  {
  }

  lemma ProductMonotone(a: real, b: real, c: real)
    requires a <= b && c >= 0.0
    ensures a * c <= b * c
  {
  }

  lemma ProductNonzero(x: real, y: real)
    requires x != 0.0 && y != 0.0
    ensures x * y != 0.0
  {
  }

  lemma SquarePositive(x: real, square: real)
    requires x != 0.0 && square == x * x
    ensures square > 0.0
  {
    if x > 0.0 {
      ProductPositive(x, x, square);
    } else {
      ProductPositive(-x, -x, square);
    }
  }

  lemma SquareNonnegative(x: real, square: real)
    requires square == x * x
    ensures square >= 0.0
  {
    if x != 0.0 {
      SquarePositive(x, square);
    }
  }

  lemma SquaresPositive(a: real, b: real, sum: real)
    requires a != 0.0 || b != 0.0
    requires sum == a * a + b * b
    ensures sum > 0.0
  {
    SquareNonnegative(a, a * a);
    SquareNonnegative(b, b * b);
    if a != 0.0 {
      SquarePositive(a, a * a);
    } else {
      SquarePositive(b, b * b);
    }
  }

  lemma QuotientIs(n: real, d: real, q: real)
    requires d != 0.0 && q * d == n
    ensures n / d == q
  {
  }

  lemma QuotientTimes(n: real, d: real, q: real)
    requires d != 0.0 && q == n / d
    ensures q * d == n
  {
  }

  lemma QuotientSum(a: real, b: real, d: real)
    requires d != 0.0
    ensures a / d + b / d == (a + b) / d
  {
  }

  lemma QuotientTwice(n: real, s: real, q: real)
    requires s != 0.0 && q != 0.0
    ensures s * q != 0.0
    ensures n / (s * q) == n / s / q
  {
  }

  lemma SquareOfProduct(q: real, r: real, h: real)
    requires h == q * r
    ensures h * h == (q * q) * (r * r)
  {
  }

  lemma QuotientSquare(h: real, r: real, q: real)
    requires r != 0.0 && h == q * r
    ensures r * r != 0.0
    ensures (h * h) / (r * r) == q * q
  {
    SquarePositive(r, r * r);
    SquareOfProduct(q, r, h);
    QuotientIs(h * h, r * r, q * q);
  }

  lemma SquareOfSum(a: real, b: real)
    ensures (a + b) * (a + b) == a * a + 2.0 * (a * b) + b * b
  {
  }

  lemma NonnegativeProduct(x: real, y: real, product: real)
    requires x >= 0.0 && y >= 0.0 && product == x * y
    ensures product >= 0.0
  {
  }
}
