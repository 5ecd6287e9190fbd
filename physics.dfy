/** The closed-form physics of the calculator's `calculateBallistics`
    (script.js): the wind decomposition, the wind-adjusted velocity, flight
    time, free-fall drop, the zero-corrected drop, wind drift and the impact
    velocity and energy, each as a function over exact reals.

    Units follow the source: metres, seconds, grams, centimetres of drop. */
module Physics {

  /** Gravitational acceleration in m/s^2 (`g`). */
  const G: real := 9.81
  /** Fraction of the head/tail wind added to the muzzle velocity. */
  const WindCoupling: real := 0.1
  /** Velocity lost per metre of range, divided by the ballistic coefficient. */
  const LossPerMetre: real := 0.01
  const CentimetresPerMetre: real := 100.0
  const GramsPerKilogram: real := 1000.0
  const DegreesPerHalfTurn: real := 180.0

  /** `Math.PI`, `Math.sin` and `Math.cos`, which have no counterpart over the
      reals, are supplied by the caller. */
  datatype Trig = Trig(pi: real, sin: real -> real, cos: real -> real)

  /** The wind split into the component across the line of fire and the
      component along it. */
  datatype Wind = Wind(cross: real, headTail: real)

  function Radians(degrees: real, pi: real): real
  {
    degrees * pi / DegreesPerHalfTurn
  }

  /** Angle in degrees to radians, then cross = speed * sin, along = speed * cos. */
  function WindComponents(windSpeed: real, windAngle: real, trig: Trig): (w: Wind)
    ensures windSpeed == 0.0 ==> w == Wind(0.0, 0.0)
  {
    var angle := Radians(windAngle, trig.pi);
    Wind(windSpeed * trig.sin(angle), windSpeed * trig.cos(angle))
  }

  /** Whenever sin^2 + cos^2 = 1 holds at the wind angle, the decomposition
      preserves the wind's magnitude. */
  lemma WindMagnitude(windSpeed: real, windAngle: real, trig: Trig)
    requires var a := Radians(windAngle, trig.pi);
      trig.sin(a) * trig.sin(a) + trig.cos(a) * trig.cos(a) == 1.0
    ensures var w := WindComponents(windSpeed, windAngle, trig);
      w.cross * w.cross + w.headTail * w.headTail == windSpeed * windSpeed
  {
    var a := Radians(windAngle, trig.pi);
    var s, c := trig.sin(a), trig.cos(a);
    calc {
      (windSpeed * s) * (windSpeed * s) + (windSpeed * c) * (windSpeed * c);
      windSpeed * windSpeed * (s * s + c * c);
    }
  }

  /** The muzzle velocity perturbed by a tenth of the head/tail wind: a tail
      wind (positive component) speeds the projectile up, a head wind slows it. */
  function AdjustedVelocity(velocity: real, headTailWind: real): (v: real)
    ensures v > velocity <==> headTailWind > 0.0
    ensures v == velocity <==> headTailWind == 0.0
  {
    velocity + headTailWind * WindCoupling
  }

  /** Time to cover `d` metres at `v` m/s: the time that, multiplied by the
      velocity, gives back the distance. */
  function FlightTime(d: real, v: real): (t: real)
    requires v != 0.0
    ensures t * v == d
  {
    d / v
  }

  /** Free-fall drop in centimetres after flying `d` metres at `v` m/s, with
      no drag: half g times the flight time squared. */
  function FreeFallDrop(d: real, v: real): (h: real)
    requires v != 0.0
    ensures h >= 0.0
    ensures h == 0.0 <==> d == 0.0
  {
    var t := FlightTime(d, v);
    assert t == 0.0 <==> d == 0.0;
    assert t * t > 0.0 <== t != 0.0;
    0.5 * G * (t * t) * CentimetresPerMetre
  }

  /** The drop grows strictly with the range. */
  lemma FreeFallDropIncreasing(d1: real, d2: real, v: real)
    requires v != 0.0
    requires 0.0 <= d1 < d2
    ensures FreeFallDrop(d1, v) < FreeFallDrop(d2, v)
  {
    var t1, t2 := FlightTime(d1, v), FlightTime(d2, v);
    if v > 0.0 {
      assert 0.0 <= t1 < t2;
      assert t1 * t1 <= t1 * t2 < t2 * t2;
    } else {
      assert t2 < t1 <= 0.0;
      assert t1 * t1 <= t1 * t2 < t2 * t2;
    }
  }

  /** Drop at the target corrected for the sight's zero: the free-fall drop at
      the target minus the free-fall drop at the zero range. Both branches of
      the source compute the same value. */
  function ZeroCorrectedDrop(distance: real, zeroDistance: real, v: real): (drop: real)
    requires v != 0.0
    ensures drop + FreeFallDrop(zeroDistance, v) == FreeFallDrop(distance, v)
    ensures distance == zeroDistance ==> drop == 0.0
  {
    var dropAtZero := FreeFallDrop(zeroDistance, v);
    if distance >= zeroDistance then
      var dropAtTarget := FreeFallDrop(distance, v);
      dropAtTarget - dropAtZero
    else
      var dropAtTarget := FreeFallDrop(distance, v);
      dropAtTarget - dropAtZero
  }

  /** For ranges that are not negative the corrected drop is positive (below
      the point of aim) exactly beyond the zero, zero exactly at it, and
      negative (above) exactly before it. */
  lemma DropSign(distance: real, zeroDistance: real, v: real)
    requires v != 0.0
    requires 0.0 <= distance && 0.0 <= zeroDistance
    ensures ZeroCorrectedDrop(distance, zeroDistance, v) > 0.0 <==> distance > zeroDistance
    ensures ZeroCorrectedDrop(distance, zeroDistance, v) == 0.0 <==> distance == zeroDistance
    ensures ZeroCorrectedDrop(distance, zeroDistance, v) < 0.0 <==> distance < zeroDistance
  {
    if distance > zeroDistance {
      FreeFallDropIncreasing(zeroDistance, distance, v);
    } else if distance < zeroDistance {
      FreeFallDropIncreasing(distance, zeroDistance, v);
    }
  }

  /** Lateral drift in centimetres: cross wind times flight time. It vanishes
      exactly when there is no cross wind or no flight time, and otherwise
      points the way the cross wind blows (for a positive flight time). */
  function WindDrift(crossWind: real, timeOfFlight: real): (drift: real)
    ensures drift == 0.0 <==> crossWind == 0.0 || timeOfFlight == 0.0
    ensures timeOfFlight > 0.0 ==> (drift > 0.0 <==> crossWind > 0.0)
  {
    (crossWind * timeOfFlight) * CentimetresPerMetre
  }

  /** A square is positive unless its root is zero. */
  lemma SquareSign(x: real)
    ensures x * x >= 0.0
    ensures x != 0.0 ==> x * x > 0.0
  {
    if x > 0.0 {
      assert x * x > 0.0 * x;
    } else if x < 0.0 {
      var y := -x;
      assert y * y > 0.0 * y;
      assert x * x == y * y;
    }
  }

  lemma ProductZero(a: real, b: real)
    ensures a * b == 0.0 <==> a == 0.0 || b == 0.0
  {
    if a != 0.0 && b != 0.0 {
      assert (a * b) / a == b;
    }
  }

  function Max(a: real, b: real): real
  {
    if a >= b then a else b
  }

  /** Velocity at the target: the adjusted velocity less a linear loss of
      0.01 / bc per metre, floored at zero. */
  function ImpactVelocity(adjustedVelocity: real, distance: real, bc: real): (r: real)
    requires bc != 0.0
    ensures r >= 0.0
    ensures r >= adjustedVelocity - distance * LossPerMetre / bc
    ensures r == 0.0 || r == adjustedVelocity - distance * LossPerMetre / bc
  {
    var velocityLossPerMetre := LossPerMetre * (1.0 / bc);
    Max(0.0, adjustedVelocity - distance * velocityLossPerMetre)
  }

  /** With a positive coefficient the impact velocity never grows with range
      and never exceeds the (floored) adjusted velocity. */
  lemma ImpactVelocityNonIncreasing(adjustedVelocity: real, d1: real, d2: real, bc: real)
    requires bc > 0.0
    requires 0.0 <= d1 <= d2
    ensures ImpactVelocity(adjustedVelocity, d2, bc) <= ImpactVelocity(adjustedVelocity, d1, bc)
    ensures ImpactVelocity(adjustedVelocity, d1, bc) <= Max(0.0, adjustedVelocity)
  {
    var loss := LossPerMetre * (1.0 / bc);
    assert loss > 0.0;
    assert d1 * loss <= d2 * loss;
    assert 0.0 <= d1 * loss;
  }

  /** Kinetic energy in joules, the mass converted from grams to kilograms. */
  function ImpactEnergy(weight: real, impactVelocity: real): (e: real)
    ensures weight >= 0.0 ==> e >= 0.0
    ensures e == 0.0 <==> weight == 0.0 || impactVelocity == 0.0
  {
    var mass, square := weight / GramsPerKilogram, impactVelocity * impactVelocity;
    SquareSign(impactVelocity);
    ProductZero(impactVelocity, impactVelocity);
    ProductZero(0.5 * mass, square);
    assert 0.5 * mass == 0.0 <==> weight == 0.0;
    0.5 * mass * square
  }

  /** Energy scales with the square of the velocity. */
  lemma ImpactEnergyQuadratic(weight: real, impactVelocity: real, k: real)
    ensures ImpactEnergy(weight, k * impactVelocity) == k * k * ImpactEnergy(weight, impactVelocity)
  {
    var m := 0.5 * (weight / GramsPerKilogram);
    calc {
      ImpactEnergy(weight, k * impactVelocity);
      m * ((k * impactVelocity) * (k * impactVelocity));
      { assert (k * impactVelocity) * (k * impactVelocity) == k * k * (impactVelocity * impactVelocity); }
      m * (k * k * (impactVelocity * impactVelocity));
      k * k * (m * (impactVelocity * impactVelocity));
    }
  }
}
