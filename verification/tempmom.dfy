/**
 The temporal-moment engine of tempmom/_tempmom.py (class TemporalMoments).

 An engine binds a finite sample sequence to its sampling frequency fs and
 reduces it, by trapezoidal sums with period dt = 1/fs, to the energy E, the
 central time T and the central moments of order 2, 3 and 4 about T, from
 which the durations, skewness, kurtosis and root energy amplitude follow.

 Each accessor recomputes what it needs from the samples, as the source
 does. Where the source would divide by zero or take the root of a negative
 number, the accessor returns an error instead of a number.
 */
module TemporalMoments {
  import opened RealArith
  import opened Roots
  import opened Trapezoid

  datatype MomentError =
    | ZeroSampleRate    // 1/fs with fs == 0
    | NoSamples         // the peak of an empty sequence
    | ZeroEnergy        // a moment normalised by E == 0
    | ZeroDuration      // a quantity normalised by D == 0
    | NegativeRadicand  // the square root of E/D < 0

  datatype Result<T> = Ok(value: T) | Err(error: MomentError)
  {
    predicate IsFailure() {
      Err?
    }

    function PropagateFailure<U>(): Result<U>
      requires Err?
    {
      Err(error)
    }

    function Extract(): T
      requires Ok?
    {
      value
    }
  }

  /** A sample sequence bound to its sampling frequency. */
  datatype Engine = Engine(data: seq<real>, fs: real)
  {
    /** The constructor computed 1/fs, so fs is not zero. */
    predicate Valid() {
      fs != 0.0
    }

    /** Sample period. */
    function Dt(): real
      requires Valid()
    {
      1.0 / fs
    }
  }

  /** `TemporalMoments(data, fs)`: fails exactly when 1/fs is undefined. */
  function Create(data: seq<real>, fs: real): (r: Result<Engine>)
    ensures r.Ok? <==> fs != 0.0
    ensures r.Err? ==> r.error == ZeroSampleRate
    ensures r.Ok? ==> r.value.Valid() && r.value.data == data && r.value.fs == fs
    ensures r.Ok? ==> r.value.fs * r.value.Dt() == 1.0
  {
    if fs == 0.0 then Err(ZeroSampleRate)
    else
      ReciprocalSign(fs);
      Ok(Engine(data, fs))
  }

  /** At least one segment and at least one non-zero sample. */
  predicate HasSignal(x: seq<real>) {
    |x| >= 2 && exists i :: 0 <= i < |x| && x[i] != 0.0
  }

  /** Largest absolute sample value. */
  function MaxAbs(x: seq<real>): (m: real)
    requires |x| > 0
    ensures forall i :: 0 <= i < |x| ==> Abs(x[i]) <= m
    ensures exists j :: 0 <= j < |x| && m == Abs(x[j])
  {
    MaxAbsUpTo(x, |x|)
  }

  /** Largest absolute value among the first n samples. */
  function MaxAbsUpTo(x: seq<real>, n: nat): (m: real)
    requires 0 < n <= |x|
    ensures forall i :: 0 <= i < n ==> Abs(x[i]) <= m
    ensures exists j :: 0 <= j < n && m == Abs(x[j])
  {
    if n == 1 then Abs(x[0])
    else
      var m := MaxAbsUpTo(x, n - 1);
      if m < Abs(x[n - 1]) then Abs(x[n - 1]) else m
  }

  /** A sample where the peak is attained; every magnitude is below it. */
  lemma PeakAt(x: seq<real>) returns (j: int)
    requires |x| > 0
    ensures 0 <= j < |x| && MaxAbs(x) == Abs(x[j])
    ensures forall i :: 0 <= i < |x| ==> Abs(x[i]) <= MaxAbs(x)
  {
    j :| 0 <= j < |x| && MaxAbs(x) == Abs(x[j]);
  }

  /** The peak is the only bound on the magnitudes that one sample attains. */
  lemma MaxAbsUnique(x: seq<real>, m: real, j: int)
    requires 0 <= j < |x|
    requires forall i :: 0 <= i < |x| ==> Abs(x[i]) <= m
    requires m <= Abs(x[j])
    ensures MaxAbs(x) == m
  {
    var k :| 0 <= k < |x| && MaxAbs(x) == Abs(x[k]);
  }

  // ---------------------------------------------------------------------
  // The moments as functions of the samples and the period.
  // ---------------------------------------------------------------------

  /** E: trapezoidal integral of the squared samples. */
  function EnergyOf(x: seq<real>, dt: real): real
  {
    EnergySum(x, dt, Segments(x))
  }

  /** Order-p moment about time c over the whole signal, before halving. */
  function MomentOf(x: seq<real>, dt: real, c: real, p: nat): real
  {
    MomentSum(x, dt, c, p, Segments(x))
  }

  /**
   Unfolding helper: MomentOf as the sum over all segments. Proofs call it
   where the solver would otherwise have to unfold MomentOf inside a product.
   */
  lemma MomentOfIs(x: seq<real>, dt: real, c: real, p: nat)
    ensures MomentOf(x, dt, c, p) == MomentSum(x, dt, c, p, Segments(x))
  {
  }

  /** T: first moment about time zero, halved once and divided by E. */
  function CentralTimeOf(x: seq<real>, dt: real): real
    requires EnergyOf(x, dt) != 0.0
  {
    (0.5 * MomentOf(x, dt, 0.0, 1)) / EnergyOf(x, dt)
  }

  /** Order-p moment about T, halved once and divided by E (D2, St3, Kt4). */
  function CentralMomentOf(x: seq<real>, dt: real, p: nat): real
    requires EnergyOf(x, dt) != 0.0
  {
    (0.5 * MomentOf(x, dt, CentralTimeOf(x, dt), p)) / EnergyOf(x, dt)
  }

  /** The energy has the sign of dt and vanishes exactly on a silent or too short signal. */
  lemma EnergyOfFacts(x: seq<real>, dt: real)
    requires dt != 0.0
    ensures 0.0 <= dt * EnergyOf(x, dt)
    ensures EnergyOf(x, dt) != 0.0 <==> HasSignal(x)
  {
    EnergySumSign(x, dt, Segments(x));
    if |x| >= 2 {
      EnergySumZeroIff(x, dt, |x| - 1);
    }
  }

  /** For dt > 0, T is a weighted average of the midpoints dt*(i+0.5), i < n-1. */
  lemma CentralTimeBounds(x: seq<real>, dt: real)
    requires 0.0 < dt
    requires EnergyOf(x, dt) != 0.0
    ensures dt / 2.0 <= CentralTimeOf(x, dt) <= dt * (|x| as real - 1.5)
  {
    var k := Segments(x);
    var m0 := MomentSum(x, dt, 0.0, 0, k);
    var m1 := MomentSum(x, dt, 0.0, 1, k);
    var e := EnergyOf(x, dt);
    EnergyIsHalfZerothMoment(x, dt, 0.0, k);
    EnergyOfFacts(x, dt);
    assert k == |x| - 1;
    assert e == 0.5 * m0;
    assert 0.0 < m0 by {
      EvenMomentSumSign(x, dt, 0.0, 0, k);
      SignFromProduct(dt, m0);
    }
    FirstMomentBounds(x, dt, k);
    QuotientBounds(dt / 2.0, dt * (k as real - 0.5), m1, m0);
    CancelFactor(0.5, m1, m0);
  }

  /** D2 and Kt4 are never negative, whatever the sign of dt. */
  lemma EvenCentralMomentNonNeg(x: seq<real>, dt: real, p: nat)
    requires dt != 0.0
    requires EnergyOf(x, dt) != 0.0
    requires p % 2 == 0
    ensures 0.0 <= CentralMomentOf(x, dt, p)
  {
    var m := MomentSum(x, dt, CentralTimeOf(x, dt), p, Segments(x));
    EvenMomentSumSign(x, dt, CentralTimeOf(x, dt), p, Segments(x));
    EnergyOfFacts(x, dt);
    SameSignQuotient(0.5 * m, EnergyOf(x, dt), dt);
  }

  // ---------------------------------------------------------------------
  // The accessors of class TemporalMoments.
  // ---------------------------------------------------------------------

  /** `peak_value`: the largest absolute sample. */
  function PeakValue(e: Engine): (r: Result<real>)
    ensures r.Ok? <==> |e.data| > 0
    ensures r.Err? ==> r.error == NoSamples
    ensures r.Ok? ==> forall i :: 0 <= i < |e.data| ==> Abs(e.data[i]) <= r.value
    ensures r.Ok? ==> exists j :: 0 <= j < |e.data| && r.value == Abs(e.data[j])
  {
    if |e.data| == 0 then Err(NoSamples) else Ok(MaxAbs(e.data))
  }

  /** `energy`: E, of the sign of fs, zero exactly on a silent or too short signal. */
  function Energy(e: Engine): (r: real)
    requires e.Valid()
    ensures 0.0 < e.fs ==> 0.0 <= r
    ensures e.fs < 0.0 ==> r <= 0.0
    ensures r != 0.0 <==> HasSignal(e.data)
  {
    ReciprocalSign(e.fs);
    EnergyOfFacts(e.data, e.Dt());
    SignFromProduct(e.Dt(), EnergyOf(e.data, e.Dt()));
    EnergyOf(e.data, e.Dt())
  }

  /** `central_time`: T, between the first and the last segment midpoint. */
  function CentralTime(e: Engine): (r: Result<real>)
    requires e.Valid()
    ensures r.Ok? <==> HasSignal(e.data)
    ensures r.Err? ==> r.error == ZeroEnergy
    ensures r.Ok? && 0.0 < e.fs ==> e.Dt() / 2.0 <= r.value <= e.Dt() * (|e.data| as real - 1.5)
  {
    var E := Energy(e);
    if E == 0.0 then Err(ZeroEnergy)
    else
      var T := CentralTimeOf(e.data, e.Dt());
      assert 0.0 < e.fs ==> e.Dt() / 2.0 <= T <= e.Dt() * (|e.data| as real - 1.5) by {
        ReciprocalSign(e.fs);
        if 0.0 < e.fs {
          CentralTimeBounds(e.data, e.Dt());
        }
      }
      Ok(T)
  }

  /** `ms_duration`: D2, the second moment about T, never negative. */
  function MsDuration(e: Engine): (r: Result<real>)
    requires e.Valid()
    ensures r.Ok? <==> HasSignal(e.data)
    ensures r.Err? ==> r.error == ZeroEnergy
    ensures r.Ok? ==> 0.0 <= r.value
  {
    var E := Energy(e);
    if E == 0.0 then Err(ZeroEnergy)
    else
      ReciprocalSign(e.fs);
      EvenCentralMomentNonNeg(e.data, e.Dt(), 2);
      Ok(CentralMomentOf(e.data, e.Dt(), 2))
  }

  /** `rms_duration`: D, the non-negative square root of D2. */
  function RmsDuration(e: Engine, lib: RootLib): (r: Result<real>)
    requires e.Valid() && lib.Valid()
    ensures r.Ok? <==> HasSignal(e.data)
    ensures r.Err? ==> r.error == ZeroEnergy
    ensures r.Ok? ==> 0.0 <= r.value && Sq(r.value) == MsDuration(e).value
    ensures r.Ok? ==> (r.value == 0.0 <==> MsDuration(e).value == 0.0)
  {
    var D2 :- MsDuration(e);
    var D := lib.sqrt(D2);
    assert D != 0.0 ==> Sq(D) != 0.0 by {
      if D != 0.0 {
        SqPos(D);
      }
    }
    Ok(D)
  }

  /** `rea`: Ae, the square root of E/D. */
  function Rea(e: Engine, lib: RootLib): (r: Result<real>)
    requires e.Valid() && lib.Valid()
    ensures r.Ok? <==> HasSignal(e.data) && MsDuration(e).value != 0.0 && 0.0 < e.fs
    ensures !HasSignal(e.data) ==> r == Err(ZeroEnergy)
    ensures HasSignal(e.data) && MsDuration(e).value == 0.0 ==> r == Err(ZeroDuration)
    ensures HasSignal(e.data) && MsDuration(e).value != 0.0 && e.fs < 0.0 ==> r == Err(NegativeRadicand)
    ensures r.Ok? ==> 0.0 <= r.value && Sq(r.value) * RmsDuration(e, lib).value == Energy(e)
  {
    var E := Energy(e);
    var D :- RmsDuration(e, lib);
    if D == 0.0 then Err(ZeroDuration)
    else if E / D < 0.0 then Err(NegativeRadicand)
    else
      assert 0.0 <= E / D <==> 0.0 < e.fs by {
        ReciprocalSign(e.fs);
        if 0.0 < e.fs {
          QuotientBounds(0.0, E / D, E, D);
        }
      }
      Ok(lib.sqrt(E / D))
  }

  /** `central_skew`: St, the real cube root of St3, of the same sign as St3. */
  function CentralSkew(e: Engine, lib: RootLib): (r: Result<real>)
    requires e.Valid() && lib.Valid()
    ensures r.Ok? <==> HasSignal(e.data)
    ensures r.Err? ==> r.error == ZeroEnergy
    ensures r.Ok? ==> Energy(e) != 0.0 && Cube(r.value) == CentralMomentOf(e.data, e.Dt(), 3)
    ensures r.Ok? ==> Energy(e) != 0.0 && (0.0 < r.value <==> 0.0 < CentralMomentOf(e.data, e.Dt(), 3))
    ensures r.Ok? ==> Energy(e) != 0.0 && (r.value < 0.0 <==> CentralMomentOf(e.data, e.Dt(), 3) < 0.0)
  {
    var E := Energy(e);
    if E == 0.0 then Err(ZeroEnergy)
    else
      var St3 := CentralMomentOf(e.data, e.Dt(), 3);
      CbrtSign(lib, St3);
      Ok(lib.cbrt(St3))
  }

  /** `norm_skew`: S = St / D. */
  function NormSkew(e: Engine, lib: RootLib): (r: Result<real>)
    requires e.Valid() && lib.Valid()
    ensures r.Ok? <==> HasSignal(e.data) && MsDuration(e).value != 0.0
    ensures !HasSignal(e.data) ==> r == Err(ZeroEnergy)
    ensures HasSignal(e.data) && MsDuration(e).value == 0.0 ==> r == Err(ZeroDuration)
    ensures r.Ok? ==> r.value * RmsDuration(e, lib).value == CentralSkew(e, lib).value
  {
    var D :- RmsDuration(e, lib);
    var St := CentralSkew(e, lib).value;
    if D == 0.0 then Err(ZeroDuration) else Ok(St / D)
  }

  /** `central_kurt`: Kt, the non-negative fourth root of Kt4. */
  function CentralKurt(e: Engine, lib: RootLib): (r: Result<real>)
    requires e.Valid() && lib.Valid()
    ensures r.Ok? <==> HasSignal(e.data)
    ensures r.Err? ==> r.error == ZeroEnergy
    ensures r.Ok? ==> 0.0 <= r.value
    ensures r.Ok? ==> Energy(e) != 0.0 && Sq(Sq(r.value)) == CentralMomentOf(e.data, e.Dt(), 4)
  {
    var E := Energy(e);
    if E == 0.0 then Err(ZeroEnergy)
    else
      ReciprocalSign(e.fs);
      EvenCentralMomentNonNeg(e.data, e.Dt(), 4);
      Ok(lib.root4(CentralMomentOf(e.data, e.Dt(), 4)))
  }

  /** `norm_kurt`: K = Kt / D, never negative. */
  function NormKurt(e: Engine, lib: RootLib): (r: Result<real>)
    requires e.Valid() && lib.Valid()
    ensures r.Ok? <==> HasSignal(e.data) && MsDuration(e).value != 0.0
    ensures !HasSignal(e.data) ==> r == Err(ZeroEnergy)
    ensures HasSignal(e.data) && MsDuration(e).value == 0.0 ==> r == Err(ZeroDuration)
    ensures r.Ok? ==> 0.0 <= r.value && r.value * RmsDuration(e, lib).value == CentralKurt(e, lib).value
  {
    var D :- RmsDuration(e, lib);
    var Kt := CentralKurt(e, lib).value;
    if D == 0.0 then Err(ZeroDuration) else Ok(Kt / D)
  }

  // ---------------------------------------------------------------------
  // Two samples: a single segment.
  // ---------------------------------------------------------------------

  lemma OneSegmentQuotient(m: real, dt: real, w: real)
    requires (dt / 2.0) * w != 0.0
    ensures (0.5 * (m * (dt * w))) / ((dt / 2.0) * w) == m
  {
    assert 0.5 * (m * (dt * w)) == m * ((dt / 2.0) * w);
  }

  /**
   With one segment, T is its midpoint dt/2 and every moment of order p >= 1
   about T vanishes.
   */
  lemma {:induction false} SingleSegmentMoments(x: seq<real>, dt: real, p: nat)
    requires |x| == 2 && EnergyOf(x, dt) != 0.0
    requires 1 <= p
    ensures CentralTimeOf(x, dt) == dt / 2.0
    ensures CentralMomentOf(x, dt, p) == 0.0
  {
    var w := SegmentWeight(x, 0);
    var t := CentralTimeOf(x, dt);
    assert Segments(x) == 1;
    LowMomentTerms(x, dt, 0);
    assert MomentSum(x, dt, 0.0, 1, 1) == MomentTerm(x, dt, 0.0, 1, 0);
    assert EnergySum(x, dt, 1) == (dt / 2.0) * w;
    OneSegmentQuotient(Mid(dt, 0), dt, w);
    assert t == Mid(dt, 0);
    assert Pow(Mid(dt, 0) - t, p) == 0.0;
    assert MomentSum(x, dt, t, p, 1) == MomentTerm(x, dt, t, p, 0);
  }

  /**
   Two samples with signal: D2 = 0, so `rms_duration`, `central_skew` and
   `central_kurt` are zero while `norm_skew`, `norm_kurt` and `rea` divide by
   D = 0.
   */
  lemma {:induction false} TwoSamples(e: Engine, lib: RootLib)
    requires e.Valid() && lib.Valid()
    requires |e.data| == 2 && HasSignal(e.data)
    ensures MsDuration(e) == Ok(0.0)
    ensures RmsDuration(e, lib) == Ok(0.0)
    ensures CentralSkew(e, lib) == Ok(0.0)
    ensures CentralKurt(e, lib) == Ok(0.0)
    ensures NormSkew(e, lib) == Err(ZeroDuration)
    ensures NormKurt(e, lib) == Err(ZeroDuration)
    ensures Rea(e, lib) == Err(ZeroDuration)
  {
    assert Energy(e) != 0.0;
    SingleSegmentMoments(e.data, e.Dt(), 2);
    SingleSegmentMoments(e.data, e.Dt(), 3);
    SingleSegmentMoments(e.data, e.Dt(), 4);
    var St := CentralSkew(e, lib).value;
    assert Cube(St) == 0.0;
    CubeSign(St);
    var Kt := CentralKurt(e, lib).value;
    assert Sq(Sq(Kt)) == 0.0;
    SumOfSquares(Sq(Kt), 0.0);
    SumOfSquares(Kt, 0.0);
  }
}
