# Ballistic trajectory calculator — Dafny model

This project models the calculation core of a browser-based ballistic
trajectory calculator. The calculator takes seven numbers: muzzle velocity
(m/s), projectile weight (g), ballistic coefficient, target distance (m), wind
speed (m/s), wind angle (degrees) and zero distance (m). It uses closed-form,
drag-free formulas to produce these results:

- the drop at the target, corrected for the sight's zero (cm);
- the lateral wind drift (cm);
- the impact velocity, which decays linearly and is floored at zero (m/s);
- the impact energy (J);
- the time of flight (s);
- the drop accumulated at the zero range (cm);
- a 21-point trajectory curve for the chart, giving height relative to the
  line of sight against range.

Before any calculation, the entry point refuses to calculate if any of the
seven fields is NaN.

All quantities are exact Dafny `real`s. The model has three modules:

- `Physics` (physics.dfy): the scalar formulas of `calculateBallistics`. These
  are the wind decomposition, the wind-adjusted velocity, flight time,
  free-fall drop, the zero-corrected drop (the source's two identical
  branches), wind drift, impact velocity and impact energy.
- `Trajectory` (trajectory.dfy): the chart curve. It has the sight-line offset
  and the height of one sample. `Curve` is the specification: the samples
  pushed after 0, 1, …, 20 accumulated steps. `SampleTrajectory` is the
  source's `for` loop, written as a `while` loop. Its range variable `d`
  grows by `step` in each iteration, and the loop is proved to return exactly
  `Curve`. So over the reals it terminates after 21 samples when the range is
  positive, and after none when the range is negative.
- `Calculator` (calculator.dfy): the whole result record. `CalculateBallistics`
  is the specification function. `ComputeBallistics` is the imperative version
  that calls the loop. `CalculateTrajectory` adds the NaN guard in front of
  them.

`Math.PI`, `Math.sin` and `Math.cos` have no counterpart over the reals. They
are passed in as a `Trig` value (π and two functions). Lemmas that need
trigonometric facts, such as sin² + cos² = 1 or sin 90° = 1, take them as
preconditions.

The source does not check the following partial cases. They are the
preconditions of the calculation (`Calculator.Computable`):

- The adjusted velocity must be non-zero. It is the divisor of every flight
  time.
- The ballistic coefficient must be non-zero. It is the divisor of the
  velocity loss.
- The zero distance must be non-zero. When it is 0, the first sample computes
  `0 / 0`, so the first chart point has a NaN height.
- `max(distance, zeroDistance)` must be non-zero. When it is 0, the step is 0
  and the sampling loop never ends. When it is negative, the loop body never
  runs and the curve is empty. The model states that case too.

Not every one of these cases breaks the whole JavaScript result. "## Left out"
lists what the source returns for a zero coefficient and a zero zero distance,
which the model does not cover.

Two facts about the code that a reader might not expect:

- The guard rejects only NaN (script.js:13-17). ±Infinity passes it (see
  "## Left out").
- `Calculator.WorkedExample` proves the exact results of one shot. For
  example, its impact energy is 0.5 · 0.009 · 794² = 2836.962 J.

For a target nearer than the zero, the reported `drop` and the chart curve
use different sight-line corrections. `drop` subtracts the whole drop at the
zero range. The curve subtracts only a share of it that grows linearly with
range. `Trajectory.HeightBelowNegatedDropBeforeZero` proves that there the
curve lies strictly below the point `-drop`. At or beyond the zero, the two
agree (`Trajectory.CurveEndsAtTargetOrZero`, `Trajectory.Height`).

## Model

| member | source | states |
|---|---|---|
| `Physics.WindComponents` | script.js:46-50 | with no wind speed, both the cross and the head/tail components are zero |
| `Physics.WindMagnitude` | script.js:46-50 | if sin² + cos² = 1 at the wind angle, the two components have the wind speed as their magnitude |
| `Physics.AdjustedVelocity` | script.js:53 | the adjusted velocity exceeds the muzzle velocity exactly for a tail wind and equals it exactly with no head/tail wind |
| `Physics.FlightTime` | script.js:62 | the flight time times the adjusted velocity gives back the distance |
| `Physics.FreeFallDrop` | script.js:56-59 | the free-fall drop is never negative and is zero exactly at range zero |
| `Physics.FreeFallDropIncreasing` | script.js:56-59 | the free-fall drop grows strictly with range |
| `Physics.ZeroCorrectedDrop` | script.js:67-78 | both branches give drop at the target minus drop at the zero, so the drop is 0 when the target is at the zero range |
| `Physics.DropSign` | script.js:65-78 | for non-negative ranges, the drop is positive exactly beyond the zero, zero exactly at it and negative exactly before it |
| `Physics.WindDrift` | script.js:81 | the drift is zero exactly without cross wind or flight time, and for a positive flight time it has the cross wind's sign |
| `Physics.ImpactVelocity` | script.js:84-85 | the impact velocity is never negative, is at least the linearly decayed velocity, and is either that velocity or 0 |
| `Physics.ImpactVelocityNonIncreasing` | script.js:84-85 | with a positive coefficient, the impact velocity never grows with range and never exceeds the floored adjusted velocity |
| `Physics.ImpactEnergy` | script.js:88 | the energy is non-negative for a non-negative weight and is zero exactly when the weight or the velocity is zero |
| `Physics.ImpactEnergyQuadratic` | script.js:88 | scaling the impact velocity by k scales the energy by k² |
| `Trajectory.SightOffset` | script.js:97 | the sight correction is 0 at the muzzle, rises to at most the drop at the zero before the zero, and equals the drop at the zero at and beyond it |
| `Trajectory.Height` | script.js:96-98 | the sample height is 0 at the zero range and is the negated zero-corrected drop at and beyond it |
| `Trajectory.DropRatio` | script.js:96-97 | the drop at range x is the drop at the zero times (x / zero)² |
| `Trajectory.HeightAboveSightLine` | script.js:96-98 | between the muzzle and the zero, the height is at or above the line of sight, strictly above inside the interval, and 0 at the muzzle |
| `Trajectory.HeightBelowSightLine` | script.js:96-98 | beyond a positive zero, the height is strictly below the line of sight |
| `Trajectory.HeightBelowNegatedDropBeforeZero` | script.js:67-98 | before the zero, the curve lies strictly below the negated reported drop |
| `Trajectory.AccumulatedIsMultiple` | script.js:95 | adding the step k times reaches exactly k steps |
| `Trajectory.AccumulatedIncreasing` | script.js:95 | with a positive step, the accumulated range increases strictly with the iteration count |
| `Trajectory.AccumulatedNonNegative` | script.js:95 | with a positive step, the accumulated range is never negative |
| `Trajectory.WithinRangeExactly` | script.js:93-95 | the loop condition `d <= max(distance, zeroDistance)` holds exactly for the first 21 accumulated ranges |
| `Trajectory.Samples` | script.js:91-99 | the first n pushed points are, in order, the samples at 0, 1, …, n-1 accumulated steps |
| `Trajectory.Curve` | script.js:91-99 | the curve has 21 points when the range is positive and none when it is negative |
| `Trajectory.CurveStartsAtMuzzle` | script.js:95-98 | the first point has x = 0; it is (0, 0) for a positive zero and is lifted by the drop at the zero for a negative zero |
| `Trajectory.CurveEvenlySpaced` | script.js:92-95 | consecutive x values differ by the positive step and increase strictly, they stay within [0, range], and the last one is the range |
| `Trajectory.CurveCrossesSightLineAtZero` | script.js:95-98 | for a positive zero, points up to the zero are at or above the line of sight and points beyond it are below |
| `Trajectory.CurveEndsAtTargetOrZero` | script.js:93-98 | the last point is (distance, -drop) when the target is at or beyond the zero, and (zero, 0) otherwise |
| `Trajectory.SampleTrajectory` | script.js:91-99 | the sampling loop terminates and returns exactly the curve |
| `Calculator.CalculateBallistics` | script.js:37-110 | the zero drop is non-negative, the drop is 0 at the zero range, the drift is 0 with no wind, the impact velocity is non-negative, the energy is non-negative for a non-negative weight, and the curve has 21 points for a positive range |
| `Calculator.ResultRelations` | script.js:56-109 | time of flight × adjusted velocity = distance; the zero drop is the free-fall drop at the zero range; the drop is the zero-corrected drop and adds to the zero drop to give the free-fall drop at the target; drift = cross wind × time of flight × 100; energy = ½ · (weight/1000) · impact velocity²; the trajectory is the specified curve |
| `Calculator.ComputeBallistics` | script.js:37-110 | the imperative calculation, including the sampling loop, returns exactly the specified result |
| `Calculator.WorkedExample` | script.js:37-110 | 800 m/s, 9 g, coefficient 0.5, 300 m, 5 m/s wind at 90°, zero at 100 m give a flight time of 0.375 s, a zero drop of 7.6640625 cm, a drop of 61.3125 cm, a drift of 187.5 cm, 794 m/s, 2836.962 J and 21 points |
| `Calculator.Parameters` | script.js:13-25 | the parameters passed to the calculation are exactly the parsed values of the seven fields, in order |
| `Calculator.CalculateTrajectory` | script.js:13-25 | the request is refused exactly when some field is NaN, and then no result is produced; otherwise the result is the calculation on the parsed values |

## Left out

- Reading the form (`document.getElementById`, `parseFloat`) is not modelled. Each field is given as an already-parsed value, either a number or NaN.
- `parseFloat` can also return ±Infinity, and the NaN guard lets those through. Infinite inputs are not modelled, because reals have no infinities.
- The `alert` on invalid input is not modelled. The model returns `InvalidInput` instead.
- The `loading` class toggles are not modelled. They are UI only.
- The 500 ms `setTimeout` before calculating is not modelled. The calculation is treated as running immediately. The delay has no effect on the results.
- `updateResults` and its `toFixed` formatting are not modelled. They only render numbers as text.
- `updateChart` and the global chart object are not modelled. They belong to a foreign charting library.
- `setZeroDistance` and `onZeroDistanceChange` are not modelled. They are event-handler glue that re-runs the calculation.
- The constants `airDensity`, `dragCoefficient`, `bulletDiameter` and `bulletArea` are not modelled. The calculation never uses them.
- `Math.PI`, `Math.sin` and `Math.cos` are parameters (`Physics.Trig`). No property of the real trigonometric functions is assumed, except in lemmas that require one explicitly.
- IEEE-754 double arithmetic is not modelled. All arithmetic is exact over the reals.
  - In floating point, the repeated `d += step` can round past the range, so the last sample can be lost. The 21-point count and the exact zero crossing hold over the reals only.
  - The NaN and ±Infinity values that the unguarded partial cases produce in JavaScript are not modelled. Those cases are preconditions instead (`Calculator.Computable`).
- `Calculator.CalculateBallistics`: with `bc == 0` and `distance > 0`, the source computes `0.01 * (1/0) = Infinity`, then `adjustedVelocity - Infinity = -Infinity` and `Math.max(0, -Infinity) = 0`. So it returns impact velocity 0 and impact energy 0, and every other field is finite. Only with `distance == 0` as well does `0 * Infinity` give a NaN impact velocity and energy. The model excludes `bc == 0` altogether, because reals have no infinity. It therefore does not cover this finite result.
- `Calculator.CalculateBallistics`: with `zeroDistance == 0` and a positive target distance, every scalar result of the source is finite. The zero drop is 0, and the drop is the free-fall drop at the target. Only the first curve point gets a NaN height, from `0 / 0` at script.js:97. The model excludes `zeroDistance == 0` altogether. It therefore does not cover these scalar results, or the rest of the curve.
