/**
 The trapezoidal sums every temporal moment is built from.

 Segment i (0 <= i < n-1) joins samples i and i+1. Its weight is the sum of
 the two squared amplitudes and its time is the midpoint dt*(i+0.5). Each
 sum is accumulated over the first k segments, in the order of the loops in
 tempmom/_tempmom.py.
 */
module Trapezoid {
  import opened RealArith

  function Pow(b: real, p: nat): real
  {
    if p == 0 then 1.0 else b * Pow(b, p - 1)
  }

  /** Number of trapezoid segments: `range(n-1)` is empty for n <= 1. */
  function Segments(x: seq<real>): nat
  {
    if |x| == 0 then 0 else |x| - 1
  }

  /** Midpoint time of segment i. */
  function Mid(dt: real, i: nat): real
  {
    dt * (i as real + 0.5)
  }

  /** Squared amplitudes at both ends of segment i. */
  function SegmentWeight(x: seq<real>, i: nat): real
    requires i + 1 < |x|
  {
    Sq(x[i]) + Sq(x[i + 1])
  }

  /** Energy over the first k segments, halved per term. */
  function EnergySum(x: seq<real>, dt: real, k: nat): real
    requires k <= Segments(x)
  {
    if k == 0 then 0.0
    else EnergySum(x, dt, k - 1) + (dt / 2.0) * SegmentWeight(x, k - 1)
  }

  /**
   Order-p moment about time c over the first k segments, before the final
   halving: the sum of (Mid(i) - c)^p * dt * weight(i).
   */
  function MomentSum(x: seq<real>, dt: real, c: real, p: nat, k: nat): real
    requires k <= Segments(x)
  {
    if k == 0 then 0.0
    else MomentSum(x, dt, c, p, k - 1) + MomentTerm(x, dt, c, p, k - 1)
  }

  /** The contribution of segment i to the order-p moment about c. */
  function MomentTerm(x: seq<real>, dt: real, c: real, p: nat, i: nat): real
    requires i + 1 < |x|
  {
    Pow(Mid(dt, i) - c, p) * dt * SegmentWeight(x, i)
  }

  /** A moment sum is linear in its terms: scaling every term scales the sum. */
  lemma {:induction false} MomentSumLinear(x: seq<real>, y: seq<real>, s: real, dt: real, c: real, p: nat, k: nat)
    requires |x| == |y| && k <= Segments(x)
    requires forall i :: 0 <= i < k ==> MomentTerm(y, dt, c, p, i) == s * MomentTerm(x, dt, c, p, i)
    ensures MomentSum(y, dt, c, p, k) == s * MomentSum(x, dt, c, p, k)
  {
    if k > 0 {
      MomentSumLinear(x, y, s, dt, c, p, k - 1);
    }
  }

  lemma {:induction false} PowEvenNonNeg(b: real, p: nat)
    requires p % 2 == 0
    ensures 0.0 <= Pow(b, p)
    decreases p
  {
    if p > 0 {
      PowEvenNonNeg(b, p - 2);
      SqNonNeg(b);
      MulNonNeg(Sq(b), Pow(b, p - 2));
      assert Pow(b, p) == Sq(b) * Pow(b, p - 2);
    }
  }

  lemma SegmentWeightNonNeg(x: seq<real>, i: nat)
    requires i + 1 < |x|
    ensures 0.0 <= SegmentWeight(x, i)
    ensures SegmentWeight(x, i) == 0.0 <==> x[i] == 0.0 && x[i + 1] == 0.0
  {
    SumOfSquares(x[i], x[i + 1]);
  }

  /** Halving every term (energy) and halving once at the end (moments) agree. */
  lemma {:induction false} EnergyIsHalfZerothMoment(x: seq<real>, dt: real, c: real, k: nat)
    requires k <= Segments(x)
    ensures EnergySum(x, dt, k) == 0.5 * MomentSum(x, dt, c, 0, k)
  {
    if k > 0 {
      EnergyIsHalfZerothMoment(x, dt, c, k - 1);
    }
  }

  /** Every term of the energy has the sign of dt. */
  lemma {:induction false} EnergySumSign(x: seq<real>, dt: real, k: nat)
    requires k <= Segments(x)
    ensures 0.0 <= dt * EnergySum(x, dt, k)
  {
    if k > 0 {
      EnergySumSign(x, dt, k - 1);
      SegmentWeightNonNeg(x, k - 1);
      SqNonNeg(dt);
      MulNonNeg(Sq(dt), SegmentWeight(x, k - 1));
      assert dt * EnergySum(x, dt, k)
          == dt * EnergySum(x, dt, k - 1) + (Sq(dt) * SegmentWeight(x, k - 1)) / 2.0;
    }
  }

  /**
   With a non-zero period, the energy of the first k >= 1 segments vanishes
   exactly when the samples 0..k they cover are all zero.
   */
  lemma {:induction false} EnergySumZeroIff(x: seq<real>, dt: real, k: nat)
    requires dt != 0.0
    requires 1 <= k <= Segments(x)
    ensures EnergySum(x, dt, k) == 0.0 <==> forall i :: 0 <= i <= k ==> x[i] == 0.0
  {
    var w := SegmentWeight(x, k - 1);
    SegmentWeightNonNeg(x, k - 1);
    EnergySumSign(x, dt, k - 1);
    SqPos(dt);
    MulNonNeg(Sq(dt), w);
    var before := dt * EnergySum(x, dt, k - 1);
    var last := Sq(dt) * w / 2.0;
    assert dt * EnergySum(x, dt, k) == before + last;
    assert last == 0.0 <==> w == 0.0 by {
      if w != 0.0 {
        MulPos(Sq(dt), w);
      }
    }
    assert EnergySum(x, dt, k) == 0.0 <==> before == 0.0 && last == 0.0 by {
      if EnergySum(x, dt, k) != 0.0 {
        assert dt * EnergySum(x, dt, k) != 0.0;
      }
    }
    if k == 1 {
      assert EnergySum(x, dt, 0) == 0.0;
    } else {
      EnergySumZeroIff(x, dt, k - 1);
      assert before == 0.0 <==> EnergySum(x, dt, k - 1) == 0.0;
    }
  }

  /** An even-order moment sum has the sign of dt. */
  lemma {:induction false} EvenMomentSumSign(x: seq<real>, dt: real, c: real, p: nat, k: nat)
    requires p % 2 == 0
    requires k <= Segments(x)
    ensures 0.0 <= dt * MomentSum(x, dt, c, p, k)
  {
    if k > 0 {
      EvenMomentSumSign(x, dt, c, p, k - 1);
      var w := SegmentWeight(x, k - 1);
      var q := Pow(Mid(dt, k - 1) - c, p);
      SegmentWeightNonNeg(x, k - 1);
      PowEvenNonNeg(Mid(dt, k - 1) - c, p);
      SqNonNeg(dt);
      MulNonNeg(Sq(dt), w);
      MulNonNeg(q, Sq(dt) * w);
      assert dt * (q * dt * w) == q * (Sq(dt) * w);
    }
  }

  /** The first moment about c, expanded into moments about time zero. */
  lemma {:induction false} FirstMomentAbout(x: seq<real>, dt: real, c: real, k: nat)
    requires k <= Segments(x)
    ensures MomentSum(x, dt, c, 1, k) == MomentSum(x, dt, 0.0, 1, k) - c * MomentSum(x, dt, 0.0, 0, k)
  {
    if k > 0 {
      FirstMomentAbout(x, dt, c, k - 1);
      var m := Mid(dt, k - 1);
      var w := SegmentWeight(x, k - 1);
      assert Pow(m - c, 1) == m - c;
      assert Pow(m - 0.0, 1) == m;
      assert (m - c) * dt * w == m * dt * w - c * (1.0 * dt * w);
    }
  }

  /** The zeroth and first moment terms about time zero. */
  lemma LowMomentTerms(x: seq<real>, dt: real, i: nat)
    requires i + 1 < |x|
    ensures MomentTerm(x, dt, 0.0, 0, i) == dt * SegmentWeight(x, i)
    ensures MomentTerm(x, dt, 0.0, 1, i) == Mid(dt, i) * (dt * SegmentWeight(x, i))
  {
    assert Pow(Mid(dt, i) - 0.0, 1) == Mid(dt, i);
  }

  lemma LowerStep(a: real, m0: real, m1: real, m: real, w: real)
    requires a * m0 <= m1 && a <= m && 0.0 <= w
    ensures a * (m0 + w) <= m1 + m * w
  {
    MulNonNeg(m - a, w);
  }

  lemma UpperStep(dt: real, m0: real, m1: real, m: real, w: real)
    requires m1 <= (m - dt) * m0 && 0.0 <= dt * m0
    ensures m1 + m * w <= m * (m0 + w)
  {
  }

  /**
   For dt > 0 the first moment is a non-negative combination of midpoint
   times lying in [dt/2, dt*(k-0.5)], weighted by the zeroth moment.
   */
  lemma FirstMomentBounds(x: seq<real>, dt: real, k: nat)
    requires 0.0 < dt
    requires k <= Segments(x)
    ensures dt / 2.0 * MomentSum(x, dt, 0.0, 0, k) <= MomentSum(x, dt, 0.0, 1, k)
    ensures MomentSum(x, dt, 0.0, 1, k) <= dt * (k as real - 0.5) * MomentSum(x, dt, 0.0, 0, k)
  {
    FirstMomentLower(x, dt, k);
    FirstMomentUpper(x, dt, k);
  }

  lemma {:induction false} FirstMomentLower(x: seq<real>, dt: real, k: nat)
    requires 0.0 < dt
    requires k <= Segments(x)
    ensures dt / 2.0 * MomentSum(x, dt, 0.0, 0, k) <= MomentSum(x, dt, 0.0, 1, k)
  {
    if k > 0 {
      var m0 := MomentSum(x, dt, 0.0, 0, k - 1);
      var m1 := MomentSum(x, dt, 0.0, 1, k - 1);
      var m := Mid(dt, k - 1);
      var w := dt * SegmentWeight(x, k - 1);
      FirstMomentLower(x, dt, k - 1);
      assert 0.0 <= w by {
        SegmentWeightNonNeg(x, k - 1);
        MulNonNeg(dt, SegmentWeight(x, k - 1));
      }
      LowMomentTerms(x, dt, k - 1);
      LowerStep(dt / 2.0, m0, m1, m, w);
    }
  }

  lemma {:induction false} FirstMomentUpper(x: seq<real>, dt: real, k: nat)
    requires 0.0 < dt
    requires k <= Segments(x)
    ensures MomentSum(x, dt, 0.0, 1, k) <= dt * (k as real - 0.5) * MomentSum(x, dt, 0.0, 0, k)
  {
    if k > 0 {
      var m0 := MomentSum(x, dt, 0.0, 0, k - 1);
      var m1 := MomentSum(x, dt, 0.0, 1, k - 1);
      var m := Mid(dt, k - 1);
      var w := dt * SegmentWeight(x, k - 1);
      assert m == dt * (k as real - 0.5);
      assert m1 <= (m - dt) * m0 by {
        FirstMomentUpper(x, dt, k - 1);
        assert dt * ((k - 1) as real - 0.5) == m - dt;
      }
      assert 0.0 <= dt * m0 by {
        EvenMomentSumSign(x, dt, 0.0, 0, k - 1);
      }
      LowMomentTerms(x, dt, k - 1);
      UpperStep(dt, m0, m1, m, w);
    }
  }
}
