# Temporal moments of a sampled signal, in Dafny

This project models the temporal-moment engine of `tempmom/_tempmom.py` and proves
properties of that model. The engine is the class `TemporalMoments` and its subclass
`TemporalMomentsAll`. It binds a finite sample sequence `data` to a sampling frequency `fs`
and sets `dt = 1/fs`. From these it computes, by trapezoidal sums over the `n-1` segments
between neighbouring samples:

- the peak value;
- the energy `E`;
- the central time `T`;
- the central moments of order 2, 3 and 4 about `T` (`D2`, `St3`, `Kt4`);
- the quantities derived from them:
  - `D = sqrt(D2)`, `St = cbrt(St3)` and `Kt = Kt4^(1/4)`;
  - `S = St/D`, `K = Kt/D` and `Ae = sqrt(E/D)`;
- the two aggregate arrays `full()` and `semi()`.

Files and modules:

- `arith.dfy` (`RealArith`) holds small facts about real arithmetic.
- `roots.dfy` (`Roots`) holds the three root functions. They are a parameter `RootLib`, characterised by their defining equations.
- `trapezoid.dfy` (`Trapezoid`) holds the segment sums. A sum over the first `k` segments is accumulated in the order of the source's loops.
- `tempmom.dfy` (`TemporalMoments`) holds:
  - the engine;
  - the whole-signal moments;
  - one function per accessor of `TemporalMoments`;
  - the two-sample case.
- `tempmom_all.dfy` (`TemporalMomentsAll`) holds `full()` and `semi()`.
- `scaling.dfy` (`Scaling`) states what happens when every sample is multiplied by a constant `c`.
- `shift.dfy` (`Shift`) states what happens when a zero sample is put in front of a signal that already starts at zero.

Arithmetic is exact, over `real`. The energy halves every term, while the moments halve
the accumulated sum once. Both are kept exactly as the source writes them.
`Trapezoid.EnergyIsHalfZerothMoment` proves that they agree.

The source has no guards. Where it would divide by zero, or take the square root of a
negative number, the model's accessor returns an error value of type `MomentError` instead
of a number:

- `ZeroSampleRate`: `1/fs` with `fs == 0`.
- `NoSamples`: the maximum of an empty sequence.
- `ZeroEnergy`: a division by `E == 0`. This happens for an all-zero signal and for fewer than two samples.
- `ZeroDuration`: a division by `D == 0`.
- `NegativeRadicand`: `sqrt(E/D)` with `E/D < 0`. This can only happen for `fs < 0`.

The model adds no guards of its own either:

- The constructor fails only for `fs == 0`.
- Fewer than two samples make `E == 0`, so every moment about `T` fails with `ZeroEnergy`.
- `fs < 0` makes `dt` negative, so `E` is negative while `D` is not, and `rea` takes the root of a negative number (`NegativeRadicand`).

## Model

| member | source | states |
|---|---|---|
| TemporalMoments.Create | tempmom/_tempmom.py:41-47 | construction fails exactly when `fs == 0` (where `1/fs` is undefined) with `ZeroSampleRate`; otherwise the engine keeps the samples and `fs`, and `dt == 1/fs` |
| TemporalMoments.PeakValue | tempmom/_tempmom.py:49-54 | the peak is defined exactly for a non-empty signal; it bounds every `abs(x[i])` and equals `abs(x[j])` for some sample `j` |
| TemporalMoments.MaxAbs | tempmom/_tempmom.py:52 | the maximum magnitude bounds every sample's magnitude and is attained by one sample |
| TemporalMoments.MaxAbsUnique | tempmom/_tempmom.py:52 | a bound on all magnitudes that one sample attains is the maximum |
| TemporalMoments.Energy | tempmom/_tempmom.py:56-67 | `E >= 0` for `fs > 0` and `E <= 0` for `fs < 0`; `E != 0` exactly when there are at least two samples and one of them is non-zero |
| TemporalMoments.EnergyOfFacts | tempmom/_tempmom.py:62-67 | `dt * E >= 0`; `E != 0` exactly when the signal has at least two samples and a non-zero one |
| TemporalMoments.CentralTime | tempmom/_tempmom.py:69-85 | `T` is defined exactly when `E != 0`, fails with `ZeroEnergy` otherwise, and for `fs > 0` lies in `[dt/2, dt*(n-1.5)]` |
| TemporalMoments.CentralTimeBounds | tempmom/_tempmom.py:78-83 | for `dt > 0` and `E != 0`, `T` is an energy-weighted average of the segment midpoints, so `dt/2 <= T <= dt*(n-1.5)` |
| TemporalMoments.MsDuration | tempmom/_tempmom.py:87-105 | `D2` is defined exactly when `E != 0`, fails with `ZeroEnergy` otherwise, and is never negative |
| TemporalMoments.EvenCentralMomentNonNeg | tempmom/_tempmom.py:97-103 | every even-order moment about `T` (`D2`, `Kt4`) is non-negative for either sign of `dt` |
| TemporalMoments.RmsDuration | tempmom/_tempmom.py:107-115 | `D >= 0` and `D*D == D2`; `D == 0` exactly when `D2 == 0`; fails only as `D2` fails |
| TemporalMoments.Rea | tempmom/_tempmom.py:117-126 | `Ae` is defined exactly when `E != 0`, `D2 != 0` and `fs > 0`; then `Ae >= 0` and `Ae*Ae*D == E`; otherwise it fails with `ZeroEnergy`, then `ZeroDuration` (division by `D == 0`), then `NegativeRadicand` (`fs < 0`) |
| TemporalMoments.CentralSkew | tempmom/_tempmom.py:128-147 | `St` is defined exactly when `E != 0`; `St^3 == St3`, and `St` is positive (negative) exactly when `St3` is |
| TemporalMoments.NormSkew | tempmom/_tempmom.py:149-158 | `S` is defined exactly when `E != 0` and `D2 != 0`, and then `S * D == St`; otherwise it fails with `ZeroEnergy` for no signal and `ZeroDuration` for `D2 == 0` |
| TemporalMoments.CentralKurt | tempmom/_tempmom.py:160-179 | `Kt` is defined exactly when `E != 0`; `Kt >= 0` and `Kt^4 == Kt4` |
| TemporalMoments.NormKurt | tempmom/_tempmom.py:181-190 | `K` is defined exactly when `E != 0` and `D2 != 0`, and then `K >= 0` and `K * D == Kt`; otherwise it fails with `ZeroEnergy` for no signal and `ZeroDuration` for `D2 == 0` |
| TemporalMoments.SingleSegmentMoments | tempmom/_tempmom.py:78-83 | with two samples and `E != 0`, `T == dt/2` and every moment of order `p >= 1` about `T` is zero |
| TemporalMoments.TwoSamples | tempmom/_tempmom.py:97-126 | with two samples and signal, `D2 == D == St == Kt == 0`, and `S`, `K` and `Ae` fail with `ZeroDuration` |
| Trapezoid.EnergyIsHalfZerothMoment | tempmom/_tempmom.py:64-65 | halving every energy term equals halving the zeroth-order moment sum once |
| Trapezoid.EnergySumSign | tempmom/_tempmom.py:64-65 | every partial energy sum has the sign of `dt` |
| Trapezoid.EnergySumZeroIff | tempmom/_tempmom.py:64-65 | with `dt != 0`, the energy of the first `k >= 1` segments is zero exactly when samples `0..k` are all zero |
| Trapezoid.EvenMomentSumSign | tempmom/_tempmom.py:99-101 | an even-order moment sum about any time has the sign of `dt` |
| Trapezoid.FirstMomentAbout | tempmom/_tempmom.py:80-81 | the first moment about `c` is the first moment about zero minus `c` times the zeroth moment |
| Trapezoid.FirstMomentBounds | tempmom/_tempmom.py:80-81 | for `dt > 0`, the first moment sum lies between `dt/2` and `dt*(k-0.5)` times the zeroth moment sum |
| Trapezoid.MomentSumLinear | tempmom/_tempmom.py:99-101 | multiplying every segment term by `s` multiplies the moment sum by `s` |
| Roots.SqrtScale | tempmom/_tempmom.py:113 | `sqrt(c*c*y) == abs(c) * sqrt(y)` for `y >= 0` |
| Roots.CbrtSign | tempmom/_tempmom.py:145 | the cube root of `y` is positive (negative) exactly when `y` is |
| Roots.SqrtOfScaledQuotient | tempmom/_tempmom.py:124 | when the numerator of `E/D` grows by `c*c`, its square root grows by `abs(c)` |
| TemporalMomentsAll.Full | tempmom/_tempmom.py:202-213 | `full()` fails as a whole when any entry fails, with the error of its first failing entry: `NoSamples` for no samples (the peak), `ZeroEnergy` for no signal (`T`), `ZeroDuration` for `D2 == 0` (`S`), `NegativeRadicand` for `fs < 0` (`Ae`); it succeeds exactly when `E != 0`, `D2 != 0` and `fs > 0`, and then is `[peak, E, T, D2, D, St, S, Kt, K, Ae]` as the single accessors compute them |
| TemporalMomentsAll.FullEntriesBounded | tempmom/_tempmom.py:207-211 | in a successful `full()`, the peak bounds every magnitude, `E > 0` and `dt/2 <= T <= dt*(n-1.5)` |
| TemporalMomentsAll.FullEntriesAgree | tempmom/_tempmom.py:207-211 | in a successful `full()`: `D > 0`, `D*D == D2`, `Kt >= 0`, `St > 0` exactly when `S > 0`, `Kt > 0` exactly when `K > 0`, and `Ae > 0` |
| TemporalMomentsAll.Semi | tempmom/_tempmom.py:215-222 | `semi()` fails as a whole when any entry fails: with `ZeroEnergy` for no signal, `ZeroDuration` for `D2 == 0` and `NegativeRadicand` for `fs < 0`; it succeeds exactly when `E != 0`, `D2 != 0` and `fs > 0`, and then is `[E, T, D, St, Kt, Ae]` as the single accessors compute them |
| TemporalMomentsAll.SemiProjectsFull | tempmom/_tempmom.py:215-222 | `semi()` succeeds exactly when `full()` does, and is entries 1, 2, 4, 5, 7 and 9 of it |
| Scaling.ScaleEnergySum | tempmom/_tempmom.py:64-65 | multiplying the samples by `c` multiplies every partial energy sum by `c*c` |
| Scaling.ScaleMomentSum | tempmom/_tempmom.py:99-101 | multiplying the samples by `c` multiplies every partial moment sum by `c*c` |
| Scaling.ScaleMoments | tempmom/_tempmom.py:80-83 | for `c != 0`, `E` scales by `c*c` and stays non-zero, while `T` and every moment about `T` are unchanged |
| Scaling.ScaledMaxAbs | tempmom/_tempmom.py:52 | multiplying the samples by `c` multiplies the largest magnitude by `abs(c)` |
| Scaling.ScaleEnergy | tempmom/_tempmom.py:56-67 | `energy` of the scaled signal is `c*c` times the original, for every `c` |
| Scaling.ScalePeak | tempmom/_tempmom.py:49-54 | `peak_value` of the scaled signal is `abs(c)` times the original, and fails exactly when the original fails |
| Scaling.ScaleInvariantMoments | tempmom/_tempmom.py:69-190 | for `c != 0`, `central_time`, `ms_duration`, `rms_duration`, `central_skew`, `norm_skew`, `central_kurt` and `norm_kurt` are unchanged, errors included |
| Scaling.ScaleRea | tempmom/_tempmom.py:117-126 | for `c != 0`, `rea` fails exactly when it failed before, and otherwise is `abs(c)` times the original |
| Shift.ShiftEnergySum | tempmom/_tempmom.py:64-65 | with a zero first sample, the energy of the first `k+1` segments after a zero is prepended equals that of the first `k` original segments |
| Shift.ShiftMomentSum | tempmom/_tempmom.py:80-81 | with a zero first sample, the moment about `c` of `k+1` segments after a zero is prepended equals the original moment about `c - dt` of `k` segments |
| Shift.ShiftCentralTime | tempmom/_tempmom.py:78-83 | with a zero first sample and `E != 0`, prepending a zero keeps `E` and adds exactly `dt` to `T` |
| Shift.ShiftCentralMoment | tempmom/_tempmom.py:97-103 | with a zero first sample and `E != 0`, prepending a zero leaves every moment about `T` unchanged |
| Shift.ShiftPeak | tempmom/_tempmom.py:49-54 | prepending a zero to a non-empty signal leaves `peak_value` unchanged |
| Shift.ShiftEnergyAndTime | tempmom/_tempmom.py:56-85 | with a zero first sample, prepending a zero keeps `energy`, and `central_time` fails exactly when it failed before and otherwise grows by `dt` |
| Shift.ShiftInvariantMoments | tempmom/_tempmom.py:87-190 | with a zero first sample, prepending a zero leaves `ms_duration`, `rms_duration`, `central_skew`, `norm_skew`, `central_kurt`, `norm_kurt` and `rea` unchanged, errors included |

## Left out

- Floating point: all arithmetic is exact over `real`. IEEE-754 rounding is not modelled, so neither is the numerical difference between per-term and once-at-the-end halving.
- Error values instead of exceptions or special values. Python raises `ZeroDivisionError` on `1/fs` with `fs == 0`, and on a division by a zero Python float. numpy returns `inf` or `nan` with a warning on a division by a zero numpy float, and for the square root of a negative number. numpy raises `ValueError` on the maximum of an empty array. The model returns one `MomentError` value in every such case and does not tell these outcomes apart. With numpy samples, `full()` and `semi()` raise nothing for a zero `D` or a silent signal of at least two samples: they return an array with `nan` or `inf` in the affected entries. The model makes such an aggregate fail as a whole, with the error of its first failing entry.
- Roots: `np.sqrt`, `np.cbrt` and `** (1/4)` are not defined in Dafny. They are a parameter `RootLib`, constrained only by their defining equations: a non-negative root that squares (or raises to the fourth power) back to a non-negative input, and a cube root that cubes back to its input.
- `Kt4 ** (1/4)`: a negative `Kt4` would give `nan` for a numpy float and a complex number for a Python float. The model does not model this; `EvenCentralMomentNonNeg` proves `Kt4 >= 0`, so the case cannot arise.
- Dynamic typing and numpy array details: `abs` on arrays, `np.max`, `np.array`, and integer versus float samples. Samples are reals and the aggregates are sequences.
- The subclass constructor `TemporalMomentsAll.__init__` only calls the base constructor. It is the same `Create`.
- The tolerance tests in `tempmom/tests.py`. They compare against closed forms of an analytic signal, which is discretisation error rather than a property of the code.
- The plotting example and the packaging script.
- Aliasing of the sample array: the constructor stores the caller's array itself (`self.data = data`, tempmom/_tempmom.py:44), so mutating it between accessor calls changes later results. The model's samples are an immutable sequence, so every accessor sees the samples given at construction; no property above depends on this.
- TemporalMomentsAll.FullEntriesAgree: states the sign and root relations between the entries of `full()`. It omits the product relations `S*D == St`, `K*D == Kt` and `Ae*Ae*D == E`, which `NormSkew`, `NormKurt` and `Rea` state about the same values.
