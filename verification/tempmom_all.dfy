/**
 The aggregate views of tempmom/_tempmom.py (class TemporalMomentsAll):
 `full()` packs the peak value and every moment, `semi()` the six most used
 ones, each in a fixed order. The entries are evaluated left to right, and
 an aggregate with any failing entry fails as a whole, with the error of its
 first failing entry.
 */
module TemporalMomentsAll {
  import opened RealArith
  import opened Roots
  import opened TemporalMoments

  /** `full()`: [peak, E, T, D2, D, St, S, Kt, K, Ae]. */
  function Full(e: Engine, lib: RootLib): (r: Result<seq<real>>)
    requires e.Valid() && lib.Valid()
    ensures |e.data| == 0 ==> r == Err(NoSamples)
    ensures 0 < |e.data| && !HasSignal(e.data) ==> r == Err(ZeroEnergy)
    ensures HasSignal(e.data) && MsDuration(e).value == 0.0 ==> r == Err(ZeroDuration)
    ensures HasSignal(e.data) && MsDuration(e).value != 0.0 && e.fs < 0.0 ==> r == Err(NegativeRadicand)
    ensures r.Ok? <==> HasSignal(e.data) && MsDuration(e).value != 0.0 && 0.0 < e.fs
    ensures r.Ok? ==>
      && |r.value| == 10
      && r.value[0] == PeakValue(e).value
      && r.value[1] == Energy(e)
      && r.value[2] == CentralTime(e).value
      && r.value[3] == MsDuration(e).value
      && r.value[4] == RmsDuration(e, lib).value
      && r.value[5] == CentralSkew(e, lib).value
      && r.value[6] == NormSkew(e, lib).value
      && r.value[7] == CentralKurt(e, lib).value
      && r.value[8] == NormKurt(e, lib).value
      && r.value[9] == Rea(e, lib).value
  {
    var peak :- PeakValue(e);
    var T :- CentralTime(e);
    var S :- NormSkew(e, lib);
    var Ae :- Rea(e, lib);
    Ok([peak, Energy(e), T, MsDuration(e).value, RmsDuration(e, lib).value,
        CentralSkew(e, lib).value, S, CentralKurt(e, lib).value, NormKurt(e, lib).value, Ae])
  }

  /** The bounds the first entries of one successful `full()` result obey. */
  lemma FullEntriesBounded(e: Engine, lib: RootLib)
    requires e.Valid() && lib.Valid()
    ensures Full(e, lib).Ok? ==>
      var f := Full(e, lib).value;
      && (forall i :: 0 <= i < |e.data| ==> Abs(e.data[i]) <= f[0])
      && 0.0 < f[1]
      && e.Dt() / 2.0 <= f[2] <= e.Dt() * (|e.data| as real - 1.5)
  {
    if Full(e, lib).Ok? {
      var f := Full(e, lib).value;
      assert f[0] == PeakValue(e).value && f[1] == Energy(e) && f[2] == CentralTime(e).value;
      assert 0.0 < e.fs && HasSignal(e.data);
    }
  }

  /** How the moment entries of one successful `full()` result relate to each other. */
  lemma FullEntriesAgree(e: Engine, lib: RootLib)
    requires e.Valid() && lib.Valid()
    ensures Full(e, lib).Ok? ==>
      var f := Full(e, lib).value;
      && 0.0 < f[4] && Sq(f[4]) == f[3]
      && 0.0 <= f[7]
      && (0.0 < f[5] <==> 0.0 < f[6])
      && (0.0 < f[7] <==> 0.0 < f[8])
      && 0.0 < f[9]
  {
  }

  /** `semi()`: [E, T, D, St, Kt, Ae]. */
  function Semi(e: Engine, lib: RootLib): (r: Result<seq<real>>)
    requires e.Valid() && lib.Valid()
    ensures !HasSignal(e.data) ==> r == Err(ZeroEnergy)
    ensures HasSignal(e.data) && MsDuration(e).value == 0.0 ==> r == Err(ZeroDuration)
    ensures HasSignal(e.data) && MsDuration(e).value != 0.0 && e.fs < 0.0 ==> r == Err(NegativeRadicand)
    ensures r.Ok? <==> HasSignal(e.data) && MsDuration(e).value != 0.0 && 0.0 < e.fs
    ensures r.Ok? ==>
      && |r.value| == 6
      && r.value[0] == Energy(e)
      && r.value[1] == CentralTime(e).value
      && r.value[2] == RmsDuration(e, lib).value
      && r.value[3] == CentralSkew(e, lib).value
      && r.value[4] == CentralKurt(e, lib).value
      && r.value[5] == Rea(e, lib).value
  {
    var E := Energy(e);
    var T :- CentralTime(e);
    var D := RmsDuration(e, lib).value;
    var St := CentralSkew(e, lib).value;
    var Kt := CentralKurt(e, lib).value;
    var Ae :- Rea(e, lib);
    Ok([E, T, D, St, Kt, Ae])
  }

  /** `semi()` succeeds exactly when `full()` does, and picks entries 1, 2, 4, 5, 7, 9 of it. */
  lemma SemiProjectsFull(e: Engine, lib: RootLib)
    requires e.Valid() && lib.Valid()
    ensures Semi(e, lib).Ok? <==> Full(e, lib).Ok?
    ensures Full(e, lib).Ok? ==>
      var f := Full(e, lib).value;
      Semi(e, lib).value == [f[1], f[2], f[4], f[5], f[7], f[9]]
  {
  }
}
