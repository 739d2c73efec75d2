/**
 Time shift of the temporal moments: when the signal already starts at zero,
 one more zero sample in front adds a segment of zero weight and moves every
 other segment one period later. The energy is unchanged, the central time
 grows by exactly dt, and every moment about the central time is unchanged.
 */
module Shift {
  import opened RealArith
  import opened Roots
  import opened Trapezoid
  import opened TemporalMoments

  /** The samples with one zero sample in front. */
  function Prepend(x: seq<real>): (y: seq<real>)
    ensures |y| == |x| + 1 && y[0] == 0.0
    ensures forall i :: 0 <= i < |x| ==> y[i + 1] == x[i]
  {
    [0.0] + x
  }

  /** Segment i+1 of the longer signal is segment i of the original. */
  lemma ShiftSegmentWeight(x: seq<real>, i: nat)
    requires i + 1 < |x|
    ensures SegmentWeight(Prepend(x), i + 1) == SegmentWeight(x, i)
  {
  }

  /** The new first segment joins two zero samples. */
  lemma FirstSegmentSilent(x: seq<real>)
    requires 1 <= |x| && x[0] == 0.0
    ensures SegmentWeight(Prepend(x), 0) == 0.0
  {
  }

  /** Moving a segment one period later moves its midpoint by dt. */
  lemma ShiftMid(dt: real, c: real, i: nat)
    ensures Mid(dt, i + 1) - c == Mid(dt, i) - (c - dt)
  {
  }

  lemma ShiftMomentTerm(x: seq<real>, dt: real, c: real, p: nat, i: nat)
    requires i + 1 < |x|
    ensures MomentTerm(Prepend(x), dt, c, p, i + 1) == MomentTerm(x, dt, c - dt, p, i)
  {
    ShiftSegmentWeight(x, i);
    ShiftMid(dt, c, i);
  }

  /** The energy of the first k+1 segments is that of the first k original ones. */
  lemma {:induction false} ShiftEnergySum(x: seq<real>, dt: real, k: nat)
    requires 1 <= |x| && x[0] == 0.0
    requires k <= Segments(x)
    ensures Segments(Prepend(x)) == Segments(x) + 1
    ensures EnergySum(Prepend(x), dt, k + 1) == EnergySum(x, dt, k)
  {
    if k == 0 {
      FirstSegmentSilent(x);
    } else {
      ShiftEnergySum(x, dt, k - 1);
      ShiftSegmentWeight(x, k - 1);
    }
  }

  /**
   A moment about c over the first k+1 segments is the original moment about
   c - dt over the first k segments.
   */
  lemma {:induction false} ShiftMomentSum(x: seq<real>, dt: real, c: real, p: nat, k: nat)
    requires 1 <= |x| && x[0] == 0.0
    requires k <= Segments(x)
    ensures Segments(Prepend(x)) == Segments(x) + 1
    ensures MomentSum(Prepend(x), dt, c, p, k + 1) == MomentSum(x, dt, c - dt, p, k)
  {
    if k == 0 {
      FirstSegmentSilent(x);
    } else {
      ShiftMomentSum(x, dt, c, p, k - 1);
      ShiftMomentTerm(x, dt, c, p, k - 1);
    }
  }

  lemma ShiftEnergyOf(x: seq<real>, dt: real)
    requires 1 <= |x| && x[0] == 0.0
    ensures EnergyOf(Prepend(x), dt) == EnergyOf(x, dt)
  {
    ShiftEnergySum(x, dt, Segments(x));
  }

  lemma ShiftMomentOf(x: seq<real>, dt: real, c: real, p: nat)
    requires 1 <= |x| && x[0] == 0.0
    ensures MomentOf(Prepend(x), dt, c, p) == MomentOf(x, dt, c - dt, p)
  {
    ShiftMomentSum(x, dt, c, p, Segments(x));
    MomentOfIs(Prepend(x), dt, c, p);
    MomentOfIs(x, dt, c - dt, p);
  }

  /** The quotient step of the central-time shift. */
  lemma ShiftQuotient(a: real, m1: real, m0: real, e: real, dt: real)
    requires e != 0.0 && e == 0.5 * m0
    requires a == m1 + dt * m0
    ensures (0.5 * a) / e == (0.5 * m1) / e + dt
  {
    assert 0.5 * a == 0.5 * m1 + dt * e;
  }

  /** T moves one period later; the energy, and so its being non-zero, is kept. */
  lemma {:induction false} ShiftCentralTime(x: seq<real>, dt: real)
    requires 1 <= |x| && x[0] == 0.0
    requires EnergyOf(x, dt) != 0.0
    ensures EnergyOf(Prepend(x), dt) == EnergyOf(x, dt)
    ensures CentralTimeOf(Prepend(x), dt) == CentralTimeOf(x, dt) + dt
  {
    ShiftEnergyOf(x, dt);
    ShiftMomentOf(x, dt, 0.0, 1);
    FirstMomentOfAbout(x, dt, 0.0 - dt);
    EnergyIsHalfZerothMoment(x, dt, 0.0, Segments(x));
    MomentOfIs(x, dt, 0.0, 0);
    ShiftQuotient(MomentOf(x, dt, 0.0 - dt, 1), MomentOf(x, dt, 0.0, 1), MomentOf(x, dt, 0.0, 0),
                  EnergyOf(x, dt), dt);
  }

  /** The first moment about c over the whole signal, in moments about time zero. */
  lemma FirstMomentOfAbout(x: seq<real>, dt: real, c: real)
    ensures MomentOf(x, dt, c, 1) == MomentOf(x, dt, 0.0, 1) - c * MomentOf(x, dt, 0.0, 0)
  {
    FirstMomentAbout(x, dt, c, Segments(x));
    MomentOfIs(x, dt, c, 1);
    MomentOfIs(x, dt, 0.0, 1);
    MomentOfIs(x, dt, 0.0, 0);
  }

  /** Every moment about T is unchanged: both T and the segment times move by dt. */
  lemma {:induction false} ShiftCentralMoment(x: seq<real>, dt: real, p: nat)
    requires 1 <= |x| && x[0] == 0.0
    requires EnergyOf(x, dt) != 0.0
    ensures EnergyOf(Prepend(x), dt) != 0.0
    ensures CentralMomentOf(Prepend(x), dt, p) == CentralMomentOf(x, dt, p)
  {
    ShiftCentralTime(x, dt);
    var t := CentralTimeOf(x, dt);
    ShiftMomentOf(x, dt, CentralTimeOf(Prepend(x), dt), p);
    assert CentralTimeOf(Prepend(x), dt) - dt == t;
  }

  /** The engine with one zero sample in front of its samples. */
  function Shifted(e: Engine): Engine
  {
    Engine(Prepend(e.data), e.fs)
  }

  /** `peak_value` ignores an extra zero sample: magnitudes are never negative. */
  lemma {:induction false} ShiftPeak(e: Engine)
    requires 1 <= |e.data|
    ensures PeakValue(Shifted(e)) == PeakValue(e)
  {
    var x := e.data;
    var j := PeakAt(x);
    MaxAbsUnique(Prepend(x), MaxAbs(x), j + 1);
  }

  /** `energy` is unchanged and `central_time` grows by dt, failing exactly when it failed before. */
  lemma {:induction false} ShiftEnergyAndTime(e: Engine, t: real)
    requires e.Valid()
    requires 1 <= |e.data| && e.data[0] == 0.0
    ensures Energy(Shifted(e)) == Energy(e)
    ensures CentralTime(Shifted(e)).Ok? <==> CentralTime(e).Ok?
    ensures CentralTime(e) == Ok(t) ==> CentralTime(Shifted(e)) == Ok(t + e.Dt())
  {
    ShiftEnergyOf(e.data, e.Dt());
    if CentralTime(e) == Ok(t) {
      ShiftCentralTime(e.data, e.Dt());
    }
  }

  /**
   `ms_duration`, `rms_duration`, `central_skew`, `norm_skew`, `central_kurt`,
   `norm_kurt` and `rea` are unchanged, errors included.
   */
  lemma {:induction false} ShiftInvariantMoments(e: Engine, lib: RootLib)
    requires e.Valid() && lib.Valid()
    requires 1 <= |e.data| && e.data[0] == 0.0
    ensures MsDuration(Shifted(e)) == MsDuration(e)
    ensures RmsDuration(Shifted(e), lib) == RmsDuration(e, lib)
    ensures CentralSkew(Shifted(e), lib) == CentralSkew(e, lib)
    ensures NormSkew(Shifted(e), lib) == NormSkew(e, lib)
    ensures CentralKurt(Shifted(e), lib) == CentralKurt(e, lib)
    ensures NormKurt(Shifted(e), lib) == NormKurt(e, lib)
    ensures Rea(Shifted(e), lib) == Rea(e, lib)
  {
    var x := e.data;
    var dt := e.Dt();
    ShiftEnergyOf(x, dt);
    if EnergyOf(x, dt) != 0.0 {
      ShiftCentralMoment(x, dt, 2);
      ShiftCentralMoment(x, dt, 3);
      ShiftCentralMoment(x, dt, 4);
    }
  }
}
