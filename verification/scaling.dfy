/**
 Homogeneity of the temporal moments: multiplying every sample by a constant
 c scales the energy by c*c and the peak value by |c|, and leaves the central
 time and every normalised moment about it unchanged.
 */
module Scaling {
  import opened RealArith
  import opened Roots
  import opened Trapezoid
  import opened TemporalMoments

  /** Every sample multiplied by c. */
  function Scale(x: seq<real>, c: real): (y: seq<real>)
    ensures |y| == |x|
    ensures forall i :: 0 <= i < |x| ==> y[i] == c * x[i]
  {
    seq(|x|, i requires 0 <= i < |x| => c * x[i])
  }

  lemma ScaleSegmentWeight(x: seq<real>, c: real, i: nat)
    requires i + 1 < |x|
    ensures SegmentWeight(Scale(x, c), i) == Sq(c) * SegmentWeight(x, i)
  {
    SqMul(c, x[i]);
    SqMul(c, x[i + 1]);
  }

  lemma {:induction false} ScaleEnergySum(x: seq<real>, c: real, dt: real, k: nat)
    requires k <= Segments(x)
    ensures Segments(Scale(x, c)) == Segments(x)
    ensures EnergySum(Scale(x, c), dt, k) == Sq(c) * EnergySum(x, dt, k)
  {
    if k > 0 {
      ScaleEnergySum(x, c, dt, k - 1);
      ScaleSegmentWeight(x, c, k - 1);
    }
  }

  lemma ScaleMomentTerm(x: seq<real>, c: real, dt: real, t: real, p: nat, i: nat)
    requires i + 1 < |x|
    ensures MomentTerm(Scale(x, c), dt, t, p, i) == Sq(c) * MomentTerm(x, dt, t, p, i)
  {
    ScaleSegmentWeight(x, c, i);
  }

  lemma ScaleMomentSum(x: seq<real>, c: real, dt: real, t: real, p: nat, k: nat)
    requires k <= Segments(x)
    ensures Segments(Scale(x, c)) == Segments(x)
    ensures MomentSum(Scale(x, c), dt, t, p, k) == Sq(c) * MomentSum(x, dt, t, p, k)
  {
    forall i | 0 <= i < k
      ensures MomentTerm(Scale(x, c), dt, t, p, i) == Sq(c) * MomentTerm(x, dt, t, p, i)
    {
      ScaleMomentTerm(x, c, dt, t, p, i);
    }
    MomentSumLinear(x, Scale(x, c), Sq(c), dt, t, p, k);
  }

  /** The whole-signal form of ScaleMomentSum. */
  lemma {:induction false} ScaleMomentOf(x: seq<real>, c: real, dt: real, t: real, p: nat)
    ensures MomentOf(Scale(x, c), dt, t, p) == Sq(c) * MomentOf(x, dt, t, p)
  {
    ScaleWholeMomentSum(x, c, dt, t, p);
    MomentOfIs(x, dt, t, p);
    MomentOfIs(Scale(x, c), dt, t, p);
    assert ScaledBy(MomentSum(Scale(x, c), dt, t, p, Segments(Scale(x, c))), MomentSum(x, dt, t, p, Segments(x)), Sq(c));
    assert ScaledBy(MomentOf(Scale(x, c), dt, t, p), MomentOf(x, dt, t, p), Sq(c));
  }

  lemma ScaleWholeMomentSum(x: seq<real>, c: real, dt: real, t: real, p: nat)
    ensures ScaledBy(MomentSum(Scale(x, c), dt, t, p, Segments(Scale(x, c))), MomentSum(x, dt, t, p, Segments(x)), Sq(c))
  {
    ScaleMomentSum(x, c, dt, t, p, Segments(x));
  }

  /** Scaling the samples keeps the ratio of every moment to the energy. */
  lemma {:induction false} ScaleMomentRatio(x: seq<real>, c: real, dt: real, t: real, p: nat)
    requires c != 0.0 && EnergyOf(x, dt) != 0.0
    ensures EnergyOf(Scale(x, c), dt) != 0.0
    ensures (0.5 * MomentOf(Scale(x, c), dt, t, p)) / EnergyOf(Scale(x, c), dt)
         == (0.5 * MomentOf(x, dt, t, p)) / EnergyOf(x, dt)
  {
    ScaleEnergySum(x, c, dt, Segments(x));
    ScaleMomentOf(x, c, dt, t, p);
    SqPos(c);
    ScaledQuotient(0.5 * MomentOf(Scale(x, c), dt, t, p), EnergyOf(Scale(x, c), dt),
                   0.5 * MomentOf(x, dt, t, p), EnergyOf(x, dt), Sq(c));
  }

  /** E scales by c*c; for c != 0, T and every moment about T are unchanged. */
  lemma {:induction false} ScaleMoments(x: seq<real>, c: real, dt: real)
    requires c != 0.0
    ensures EnergyOf(Scale(x, c), dt) == Sq(c) * EnergyOf(x, dt)
    ensures EnergyOf(Scale(x, c), dt) != 0.0 <==> EnergyOf(x, dt) != 0.0
    ensures EnergyOf(x, dt) != 0.0 ==> CentralTimeOf(Scale(x, c), dt) == CentralTimeOf(x, dt)
    ensures EnergyOf(x, dt) != 0.0 ==>
      forall p: nat :: CentralMomentOf(Scale(x, c), dt, p) == CentralMomentOf(x, dt, p)
  {
    ScaleEnergySum(x, c, dt, Segments(x));
    SqPos(c);
    if EnergyOf(x, dt) != 0.0 {
      ScaleMomentRatio(x, c, dt, 0.0, 1);
      forall p: nat
        ensures CentralMomentOf(Scale(x, c), dt, p) == CentralMomentOf(x, dt, p)
      {
        ScaleMomentRatio(x, c, dt, CentralTimeOf(x, dt), p);
      }
    }
  }

  /**
   A bound m on |x[i]| attained at sample j makes |c|*m the peak of the
   samples multiplied by c.
   */
  lemma ScaledBoundAt(x: seq<real>, y: seq<real>, c: real, m: real, j: int)
    requires 0 <= j < |x| == |y|
    requires forall i :: 0 <= i < |x| ==> y[i] == c * x[i]
    requires forall i :: 0 <= i < |x| ==> Abs(x[i]) <= m
    requires m == Abs(x[j])
    ensures MaxAbs(y) == Abs(c) * m
  {
    forall i | 0 <= i < |y|
      ensures Abs(y[i]) <= Abs(c) * m
    {
      AbsScaleLe(c, x[i], y[i], m);
    }
    AbsScaleGe(c, x[j], y[j], m);
    MaxAbsUnique(y, Abs(c) * m, j);
  }

  /** Multiplying the samples by c multiplies their peak by |c|. */
  lemma {:induction false} ScaledMaxAbs(x: seq<real>, c: real, m: real)
    requires |x| > 0 && MaxAbs(x) == m
    ensures MaxAbs(Scale(x, c)) == Abs(c) * m
  {
    var j := PeakAt(x);
    ScaledBoundAt(x, Scale(x, c), c, m, j);
  }

  lemma AbsScaleLe(c: real, a: real, b: real, m: real)
    requires b == c * a && Abs(a) <= m
    ensures Abs(b) <= Abs(c) * m
  {
    AbsMul(c, a);
    MulLe(Abs(c), Abs(a), m);
  }

  lemma AbsScaleGe(c: real, a: real, b: real, m: real)
    requires b == c * a && m <= Abs(a)
    ensures Abs(c) * m <= Abs(b)
  {
    AbsMul(c, a);
    MulLe(Abs(c), m, Abs(a));
  }

  /** The engine of the samples multiplied by c. */
  function Scaled(e: Engine, c: real): Engine
  {
    Engine(Scale(e.data, c), e.fs)
  }

  /** `energy` scales by c*c, for every c. */
  lemma ScaleEnergy(e: Engine, c: real)
    requires e.Valid()
    ensures Energy(Scaled(e, c)) == Sq(c) * Energy(e)
  {
    ScaleEnergySum(e.data, c, e.Dt(), Segments(e.data));
  }

  /** `peak_value` scales by |c|, for every c, and fails exactly when it failed before. */
  lemma {:induction false} ScalePeak(e: Engine, c: real, m: real)
    ensures PeakValue(Scaled(e, c)).Ok? <==> PeakValue(e).Ok?
    ensures PeakValue(e) == Ok(m) ==> PeakValue(Scaled(e, c)) == Ok(Abs(c) * m)
  {
    if PeakValue(e) == Ok(m) {
      ScaledMaxAbs(e.data, c, m);
    }
  }

  /**
   For c != 0, `central_time`, `ms_duration`, `rms_duration`, `central_skew`,
   `norm_skew`, `central_kurt` and `norm_kurt` are unchanged, errors included.
   */
  lemma ScaleInvariantMoments(e: Engine, lib: RootLib, c: real)
    requires e.Valid() && lib.Valid()
    requires c != 0.0
    ensures CentralTime(Scaled(e, c)) == CentralTime(e)
    ensures MsDuration(Scaled(e, c)) == MsDuration(e)
    ensures RmsDuration(Scaled(e, c), lib) == RmsDuration(e, lib)
    ensures CentralSkew(Scaled(e, c), lib) == CentralSkew(e, lib)
    ensures NormSkew(Scaled(e, c), lib) == NormSkew(e, lib)
    ensures CentralKurt(Scaled(e, c), lib) == CentralKurt(e, lib)
    ensures NormKurt(Scaled(e, c), lib) == NormKurt(e, lib)
  {
    ScaleMoments(e.data, c, e.Dt());
  }

  /** For c != 0, `rea` scales by |c|, and fails exactly when it failed before. */
  lemma {:induction false} ScaleRea(e: Engine, lib: RootLib, c: real, a: real)
    requires e.Valid() && lib.Valid()
    requires c != 0.0
    ensures Rea(Scaled(e, c), lib).Ok? <==> Rea(e, lib).Ok?
    ensures Rea(e, lib) == Ok(a) ==> Rea(Scaled(e, c), lib) == Ok(Abs(c) * a)
  {
    ScaleInvariantMoments(e, lib, c);
    ScaleEnergy(e, c);
    SqPos(c);
    assert 0.0 < Scaled(e, c).fs <==> 0.0 < e.fs;
    if Rea(e, lib) == Ok(a) {
      assert 0.0 < RmsDuration(e, lib).value;
      assert a == lib.sqrt(Energy(e) / RmsDuration(e, lib).value);
      assert Rea(Scaled(e, c), lib).value == lib.sqrt(Energy(Scaled(e, c)) / RmsDuration(e, lib).value);
      SqrtOfScaledQuotient(lib, c, Energy(Scaled(e, c)), Energy(e), RmsDuration(e, lib).value, a);
    }
  }
}
