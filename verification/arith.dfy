/**
 Small facts about real arithmetic that the moment proofs rely on. Squares
 are kept behind `Sq` so that sums of squares reason linearly.
 */
module RealArith {

  function Abs(a: real): (r: real)
    ensures 0.0 <= r
    ensures r == a || r == -a
  {
    if a < 0.0 then -a else a
  }

  function Sq(a: real): real
  {
    a * a
  }

  function Cube(a: real): real
  {
    a * a * a
  }

  lemma MulNonNeg(a: real, b: real)
    requires 0.0 <= a && 0.0 <= b
    ensures 0.0 <= a * b
  {
  }

  lemma MulPos(a: real, b: real)
    requires 0.0 < a && 0.0 < b
    ensures 0.0 < a * b
  {
  }

  lemma SqNonNeg(a: real)
    ensures 0.0 <= Sq(a)
  {
  }

  lemma SqPos(a: real)
    requires a != 0.0
    ensures 0.0 < Sq(a)
  {
    if 0.0 < a {
      calc {
        Sq(a);
        a * a;
      >
        0.0;
      }
    } else {
      calc {
        Sq(a);
        (-a) * (-a);
      >
        0.0;
      }
    }
  }

  /** A sum of two squares is non-negative and vanishes only at the origin. */
  lemma SumOfSquares(a: real, b: real)
    ensures 0.0 <= Sq(a) + Sq(b)
    ensures Sq(a) + Sq(b) == 0.0 <==> a == 0.0 && b == 0.0
  {
    SqNonNeg(a);
    SqNonNeg(b);
    if a != 0.0 {
      SqPos(a);
    } else if b != 0.0 {
      SqPos(b);
    }
  }

  /** Cubing keeps the sign. */
  lemma CubeSign(a: real)
    ensures 0.0 < a <==> 0.0 < Cube(a)
    ensures a < 0.0 <==> Cube(a) < 0.0
  {
    if 0.0 < a {
      calc {
        Cube(a);
        a * a * a;
      >
        0.0;
      }
    } else if a < 0.0 {
      calc {
        Cube(a);
        -((-a) * (-a) * (-a));
      <
        0.0;
      }
    }
  }

  lemma ZeroFactor(d: real, s: real)
    requires 0.0 < s && d * s == 0.0
    ensures d == 0.0
  {
  }

  /** A non-negative square root is unique. */
  lemma SquareInjective(a: real, b: real)
    requires 0.0 <= a && 0.0 <= b
    requires Sq(a) == Sq(b)
    ensures a == b
  {
    assert (a - b) * (a + b) == 0.0;
    if 0.0 < a + b {
      ZeroFactor(a - b, a + b);
    }
  }

  /** The square of a product is the product of the squares. */
  lemma SqMul(a: real, b: real)
    ensures Sq(a * b) == Sq(a) * Sq(b)
  {
  }

  /** A product with a factor of known sign fixes the sign of the other factor. */
  lemma SignFromProduct(d: real, v: real)
    requires 0.0 <= d * v
    ensures 0.0 < d ==> 0.0 <= v
    ensures d < 0.0 ==> v <= 0.0
  {
    if 0.0 < d && v < 0.0 {
      MulPos(d, -v);
    } else if d < 0.0 && 0.0 < v {
      MulPos(-d, v);
    }
  }

  lemma ReciprocalSign(f: real)
    requires f != 0.0
    ensures 0.0 < f ==> 0.0 < 1.0 / f
    ensures f < 0.0 ==> 1.0 / f < 0.0
    ensures f * (1.0 / f) == 1.0
  {
  }

  /** A quotient of two quantities of the same sign is non-negative. */
  lemma SameSignQuotient(a: real, b: real, d: real)
    requires d != 0.0 && b != 0.0
    requires 0.0 <= d * a && 0.0 <= d * b
    ensures 0.0 <= a / b
  {
    SignFromProduct(d, a);
    SignFromProduct(d, b);
  }

  /** Bounds on a numerator carry over to a quotient by a positive denominator. */
  lemma QuotientBounds(lo: real, hi: real, a: real, b: real)
    requires 0.0 < b
    requires lo * b <= a <= hi * b
    ensures lo <= a / b <= hi
  {
  }

  /** A common non-zero factor cancels from a quotient. */
  lemma CancelFactor(k: real, a: real, b: real)
    requires k != 0.0 && b != 0.0
    ensures (k * a) / (k * b) == a / b
  {
  }

  lemma AbsMul(c: real, a: real)
    ensures Abs(c * a) == Abs(c) * Abs(a)
  {
    if c < 0.0 && a < 0.0 {
      assert c * a == (-c) * (-a);
    }
  }

  /** Scaling numerator and denominator by the same non-zero factor keeps the quotient. */
  lemma ScaledQuotient(ny: real, dy: real, nx: real, dx: real, s: real)
    requires s != 0.0 && dx != 0.0
    requires ny == s * nx && dy == s * dx
    ensures dy != 0.0
    ensures ny / dy == nx / dx
  {
    CancelFactor(s, nx, dx);
  }

  /**
   a is s times b. Proofs assert this named form where a scaling fact about
   equal quantities has to be carried across a lemma call: the solver matches
   equal arguments of a named predicate, but not always equal factors of a
   product.
   */
  predicate ScaledBy(a: real, b: real, s: real) {
    a == s * b
  }

  /** A non-negative factor keeps an inequality. */
  lemma MulLe(a: real, u: real, v: real)
    requires 0.0 <= a && u <= v
    ensures a * u <= a * v
  {
    MulNonNeg(a, v - u);
  }
}
