/**
 The real roots the moment engine takes: the square root (rms duration and
 root energy amplitude), the sign-preserving cube root (central skewness) and
 the fourth root (central kurtosis).

 They belong to the numeric library, not to the engine, so the model receives
 them as a parameter and only relies on their defining equations.
 */
module Roots {
  import opened RealArith

  /** The three root functions of the numeric library. */
  datatype RootLib = RootLib(sqrt: real -> real, cbrt: real -> real, root4: real -> real)
  {
    /** Each root satisfies its defining equation on its domain. */
    ghost predicate Valid() {
      && (forall y: real :: 0.0 <= y ==> 0.0 <= sqrt(y) && Sq(sqrt(y)) == y)
      && (forall y: real :: Cube(cbrt(y)) == y)
      && (forall y: real :: 0.0 <= y ==> 0.0 <= root4(y) && Sq(Sq(root4(y))) == y)
    }
  }

  /** The square root is positively homogeneous: sqrt(c*c*y) == |c| * sqrt(y). */
  lemma SqrtScale(lib: RootLib, c: real, y: real)
    requires lib.Valid()
    requires 0.0 <= y
    ensures 0.0 <= Sq(c) * y
    ensures lib.sqrt(Sq(c) * y) == Abs(c) * lib.sqrt(y)
  {
    SqNonNeg(c);
    MulNonNeg(Sq(c), y);
    var s := lib.sqrt(y);
    MulNonNeg(Abs(c), s);
    SqMul(Abs(c), s);
    assert Sq(Abs(c)) == Sq(c);
    SquareInjective(lib.sqrt(Sq(c) * y), Abs(c) * s);
  }

  /** The cube root keeps the sign of its argument. */
  lemma CbrtSign(lib: RootLib, y: real)
    requires lib.Valid()
    ensures 0.0 < lib.cbrt(y) <==> 0.0 < y
    ensures lib.cbrt(y) < 0.0 <==> y < 0.0
  {
    CubeSign(lib.cbrt(y));
  }

  /** sqrt((c*c*e)/d) == |c| * sqrt(e/d) for a non-negative quotient e/d. */
  lemma SqrtOfScaledQuotient(lib: RootLib, c: real, es: real, e: real, d: real, a: real)
    requires lib.Valid()
    requires 0.0 < d && 0.0 <= e / d
    requires es == Sq(c) * e
    requires a == lib.sqrt(e / d)
    ensures lib.sqrt(es / d) == Abs(c) * a
  {
    var y := e / d;
    assert es / d == Sq(c) * y;
    SqrtScale(lib, c, y);
  }
}
