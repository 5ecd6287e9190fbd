/** The trajectory curve that `calculateBallistics` samples for its chart:
    the range from the muzzle to the farther of the target and the zero is cut
    into equal steps, and at each sampled range the free-fall drop is measured
    against a sight line that rises to the zero range and is held level beyond
    it. */
module Trajectory {
  import opened Physics

  /** Number of equal steps between the muzzle and the farthest range. */
  const Steps: nat := 20

  /** A sample of the curve: range in metres, and height in centimetres
      relative to the line of sight (negative below it). */
  datatype Point = Point(x: real, y: real)

  /** The sight-line correction at range `d`: it rises linearly from 0 at the
      muzzle to `dropAtZero` at the zero range and stays there beyond it. */
  function SightOffset(d: real, zeroDistance: real, dropAtZero: real): (offset: real)
    requires d <= zeroDistance ==> zeroDistance != 0.0
    ensures d >= zeroDistance ==> offset == dropAtZero
    ensures d == 0.0 && zeroDistance > 0.0 ==> offset == 0.0
    ensures 0.0 <= d <= zeroDistance && 0.0 <= dropAtZero ==> 0.0 <= offset <= dropAtZero
  {
    if d <= zeroDistance then
      var fraction := d / zeroDistance;
      assert 0.0 <= d ==> 0.0 <= fraction <= 1.0;
      assert 0.0 <= fraction <= 1.0 && 0.0 <= dropAtZero ==> 0.0 <= fraction * dropAtZero <= 1.0 * dropAtZero;
      fraction * dropAtZero
    else
      dropAtZero
  }

  /** Height of the projectile above the line of sight at range `x`, for a
      sight zeroed at `zeroDistance`. Beyond the zero it is the opposite of the
      zero-corrected drop; at the zero it is on the sight line. */
  function Height(x: real, zeroDistance: real, v: real): (y: real)
    requires v != 0.0
    requires x <= zeroDistance ==> zeroDistance != 0.0
    ensures x >= zeroDistance ==> y == -ZeroCorrectedDrop(x, zeroDistance, v)
    ensures x == zeroDistance ==> y == 0.0
  {
    var h := FreeFallDrop(x, v) - SightOffset(x, zeroDistance, FreeFallDrop(zeroDistance, v));
    -h
  }

  /** Drop at range `x` is the drop at the zero scaled by the square of the
      ratio of the ranges. */
  lemma DropRatio(x: real, zeroDistance: real, v: real)
    requires v != 0.0 && zeroDistance != 0.0
    ensures FreeFallDrop(x, v) == (x / zeroDistance) * (x / zeroDistance) * FreeFallDrop(zeroDistance, v)
  {
    var a := x / zeroDistance;
    var tx, tz := FlightTime(x, v), FlightTime(zeroDistance, v);
    assert tx == a * tz;
    calc {
      FreeFallDrop(x, v);
      0.5 * G * (tx * tx) * CentimetresPerMetre;
      { assert tx * tx == a * a * (tz * tz); }
      0.5 * G * (a * a * (tz * tz)) * CentimetresPerMetre;
      a * a * (0.5 * G * (tz * tz) * CentimetresPerMetre);
    }
  }

  /** Between the muzzle and the zero the projectile is on or above the line
      of sight, and on it only at the two ends. */
  lemma HeightAboveSightLine(x: real, zeroDistance: real, v: real)
    requires v != 0.0 && zeroDistance != 0.0
    requires 0.0 <= x <= zeroDistance
    ensures Height(x, zeroDistance, v) >= 0.0
    ensures 0.0 < x < zeroDistance ==> Height(x, zeroDistance, v) > 0.0
    ensures x == 0.0 ==> Height(x, zeroDistance, v) == 0.0
  {
    var a := x / zeroDistance;
    var dz := FreeFallDrop(zeroDistance, v);
    DropRatio(x, zeroDistance, v);
    assert 0.0 <= a <= 1.0;
    assert Height(x, zeroDistance, v) == dz * (a * (1.0 - a));
    assert 0.0 <= a * (1.0 - a);
    if 0.0 < x < zeroDistance {
      assert 0.0 < a < 1.0;
      assert 0.0 < a * (1.0 - a);
      assert dz > 0.0;
      assert dz * (a * (1.0 - a)) > 0.0;
    }
  }

  /** Beyond a positive zero the projectile is strictly below the line of
      sight. */
  lemma HeightBelowSightLine(x: real, zeroDistance: real, v: real)
    requires v != 0.0
    requires 0.0 < zeroDistance < x
    ensures Height(x, zeroDistance, v) < 0.0
  {
    FreeFallDropIncreasing(zeroDistance, x, v);
  }

  /** Short of the zero the curve and the reported drop part ways: the
      reported drop subtracts the whole drop at the zero, the curve only the
      share of it reached so far, so the curve lies below the point that the
      negated drop would give. */
  lemma HeightBelowNegatedDropBeforeZero(distance: real, zeroDistance: real, v: real)
    requires v != 0.0
    requires 0.0 <= distance < zeroDistance
    ensures Height(distance, zeroDistance, v) < -ZeroCorrectedDrop(distance, zeroDistance, v)
  {
    var a := distance / zeroDistance;
    var dz := FreeFallDrop(zeroDistance, v);
    assert a < 1.0;
    assert dz > 0.0;
    assert a * dz < 1.0 * dz;
  }

  /** The farthest range the curve covers: the target or the zero. */
  function CurveRange(distance: real, zeroDistance: real): real
  {
    Max(distance, zeroDistance)
  }

  /** The distance between consecutive samples. */
  function StepLength(distance: real, zeroDistance: real): real
  {
    CurveRange(distance, zeroDistance) / Steps as real
  }

  /** The point sampled at range `d`. */
  function Sample(d: real, zeroDistance: real, v: real): Point
    requires v != 0.0 && zeroDistance != 0.0
  {
    Point(d, Height(d, zeroDistance, v))
  }

  /** The range reached after `k` steps, accumulated one step at a time as
      the calculator's loop does. */
  function Accumulated(k: nat, step: real): real
  {
    if k == 0 then 0.0 else Accumulated(k - 1, step) + step
  }

  /** Accumulating `k` equal steps lands on `k` times the step. */
  lemma {:induction false} AccumulatedIsMultiple(k: nat, step: real)
    ensures Accumulated(k, step) == k as real * step
  {
    if k > 0 {
      AccumulatedIsMultiple(k - 1, step);
      assert (k - 1) as real * step + step == k as real * step;
    }
  }

  /** The first `n` samples, one per accumulated step, in the order the
      calculator's loop pushes them. */
  function Samples(n: nat, step: real, zeroDistance: real, v: real): (s: seq<Point>)
    requires v != 0.0 && zeroDistance != 0.0
    ensures |s| == n
    ensures forall i: nat | i < n :: s[i] == Sample(Accumulated(i, step), zeroDistance, v)
  {
    if n == 0 then [] else Samples(n - 1, step, zeroDistance, v) + [Sample(Accumulated(n - 1, step), zeroDistance, v)]
  }

  /** The curve over exact reals: `Steps + 1` samples at `0, step, ..., range`
      when the range is positive; none when it is negative. */
  function Curve(distance: real, zeroDistance: real, v: real): (c: seq<Point>)
    requires v != 0.0 && zeroDistance != 0.0
    requires CurveRange(distance, zeroDistance) != 0.0
    ensures CurveRange(distance, zeroDistance) > 0.0 ==> |c| == Steps + 1
    ensures CurveRange(distance, zeroDistance) < 0.0 ==> c == []
  {
    if CurveRange(distance, zeroDistance) > 0.0 then
      Samples(Steps + 1, StepLength(distance, zeroDistance), zeroDistance, v)
    else
      []
  }

  /** The loop keeps sampling exactly while fewer than `Steps + 1` steps
      have been accumulated: the `k`-th accumulated range is within
      `Steps` steps exactly when `k <= Steps`. */
  lemma {:induction false} WithinRangeExactly(k: nat, step: real)
    requires step > 0.0
    ensures Accumulated(k, step) <= Steps as real * step <==> k <= Steps
  {
    AccumulatedIsMultiple(k, step);
    if k <= Steps {
      assert k as real <= Steps as real;
      assert k as real * step <= Steps as real * step;
    } else {
      assert k as real >= Steps as real + 1.0;
      assert k as real * step >= (Steps as real + 1.0) * step;
    }
  }

  /** Accumulated ranges grow strictly with the number of positive steps. */
  lemma {:induction false} AccumulatedIncreasing(i: nat, j: nat, step: real)
    requires i < j && step > 0.0
    ensures Accumulated(i, step) < Accumulated(j, step)
  {
    if i < j - 1 {
      AccumulatedIncreasing(i, j - 1, step);
    }
  }

  /** Accumulated ranges of a positive step are never negative. */
  lemma {:induction false} AccumulatedNonNegative(k: nat, step: real)
    requires step > 0.0
    ensures Accumulated(k, step) >= 0.0
  {
    if k > 0 {
      AccumulatedNonNegative(k - 1, step);
    }
  }

  /** The curve starts at the muzzle. For a positive zero it starts on the line
      of sight; for a negative zero every sample lies beyond the zero, so the
      first one is lifted by the full drop at the zero. */
  lemma CurveStartsAtMuzzle(distance: real, zeroDistance: real, v: real)
    requires v != 0.0 && zeroDistance != 0.0
    requires CurveRange(distance, zeroDistance) > 0.0
    ensures Curve(distance, zeroDistance, v)[0].x == 0.0
    ensures zeroDistance > 0.0 ==> Curve(distance, zeroDistance, v)[0] == Point(0.0, 0.0)
    ensures zeroDistance < 0.0 ==> Curve(distance, zeroDistance, v)[0].y == FreeFallDrop(zeroDistance, v)
  {
    var c := Curve(distance, zeroDistance, v);
    assert c[0] == Sample(Accumulated(0, StepLength(distance, zeroDistance)), zeroDistance, v);
  }

  /** The samples are evenly spaced by one step, strictly increasing, and run
      from the muzzle to exactly the farther of the target and the zero. */
  lemma CurveEvenlySpaced(distance: real, zeroDistance: real, v: real)
    requires v != 0.0 && zeroDistance != 0.0
    requires CurveRange(distance, zeroDistance) > 0.0
    ensures var c, step := Curve(distance, zeroDistance, v), StepLength(distance, zeroDistance);
      step > 0.0 &&
      (forall i: nat | i < Steps :: c[i + 1].x == c[i].x + step) &&
      (forall i: nat, j: nat | i < j <= Steps :: c[i].x < c[j].x) &&
      (forall i: nat | i <= Steps :: 0.0 <= c[i].x <= CurveRange(distance, zeroDistance)) &&
      c[Steps].x == CurveRange(distance, zeroDistance)
  {
    var c, step := Curve(distance, zeroDistance, v), StepLength(distance, zeroDistance);
    forall i: nat, j: nat | i < j <= Steps
      ensures c[i].x < c[j].x
    {
      AccumulatedIncreasing(i, j, step);
    }
    forall i: nat | i <= Steps
      ensures 0.0 <= c[i].x <= CurveRange(distance, zeroDistance)
    {
      AccumulatedNonNegative(i, step);
      WithinRangeExactly(i, step);
    }
    AccumulatedIsMultiple(Steps, step);
  }

  /** With a positive zero, every sample up to the zero is on or above the
      line of sight and every sample beyond it is below. */
  lemma CurveCrossesSightLineAtZero(distance: real, zeroDistance: real, v: real)
    requires v != 0.0 && zeroDistance > 0.0
    requires CurveRange(distance, zeroDistance) > 0.0
    ensures var c := Curve(distance, zeroDistance, v);
      (forall i: nat | i <= Steps && c[i].x <= zeroDistance :: c[i].y >= 0.0) &&
      (forall i: nat | i <= Steps && c[i].x > zeroDistance :: c[i].y < 0.0)
  {
    var c, step := Curve(distance, zeroDistance, v), StepLength(distance, zeroDistance);
    forall i: nat | i <= Steps
      ensures c[i].x <= zeroDistance ==> c[i].y >= 0.0
      ensures c[i].x > zeroDistance ==> c[i].y < 0.0
    {
      AccumulatedNonNegative(i, step);
      var x := c[i].x;
      if x <= zeroDistance {
        HeightAboveSightLine(x, zeroDistance, v);
      } else {
        HeightBelowSightLine(x, zeroDistance, v);
      }
    }
  }

  /** The last sample is the target, at the height opposite to the reported
      drop, when the target is at or beyond the zero; otherwise it is the
      zero itself, on the line of sight. */
  lemma CurveEndsAtTargetOrZero(distance: real, zeroDistance: real, v: real)
    requires v != 0.0 && zeroDistance != 0.0
    requires CurveRange(distance, zeroDistance) > 0.0
    ensures distance >= zeroDistance ==>
      Curve(distance, zeroDistance, v)[Steps] == Point(distance, -ZeroCorrectedDrop(distance, zeroDistance, v))
    ensures zeroDistance >= distance ==>
      Curve(distance, zeroDistance, v)[Steps] == Point(zeroDistance, 0.0)
  {
    AccumulatedIsMultiple(Steps, StepLength(distance, zeroDistance));
  }

  /** The loop of the calculator: start at the muzzle and advance by one step
      while the range is not exceeded, recording a point at each range. Over
      exact reals it stops after exactly `Steps + 1` samples (none when the
      range is negative); a range of exactly zero would never advance. */
  method SampleTrajectory(distance: real, zeroDistance: real, v: real) returns (trajectory: seq<Point>)
    requires v != 0.0 && zeroDistance != 0.0
    requires CurveRange(distance, zeroDistance) != 0.0
    ensures trajectory == Curve(distance, zeroDistance, v)
  {
    var dropAtZero := FreeFallDrop(zeroDistance, v);
    var range := CurveRange(distance, zeroDistance);
    var step := StepLength(distance, zeroDistance);
    assert range == Steps as real * step;
    trajectory := [];
    var d := 0.0;
    ghost var k: nat := 0;
    while d <= range
      invariant d == Accumulated(k, step)
      invariant range > 0.0 ==> k <= Steps + 1
      invariant range < 0.0 ==> k == 0
      invariant trajectory == Samples(k, step, zeroDistance, v)
      decreases Steps + 1 - k
    {
      WithinRangeExactly(k, step);
      var h := FreeFallDrop(d, v) - SightOffset(d, zeroDistance, dropAtZero);
      trajectory := trajectory + [Point(d, -h)];
      d := d + step;
      k := k + 1;
    }
    if range > 0.0 {
      WithinRangeExactly(k, step);
    }
  }
}
