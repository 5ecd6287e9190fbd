/** The calculator's entry points: `calculateBallistics`, which maps the seven
    shot parameters to the result record, and the guard of
    `calculateTrajectory`, which refuses to calculate when any field did not
    parse as a number. */
module Calculator {
  import opened Physics
  import opened Trajectory

  /** The seven scalar inputs, as numbers. */
  datatype ShotParameters = ShotParameters(
    velocity: real,
    weight: real,
    bc: real,
    distance: real,
    windSpeed: real,
    windAngle: real,
    zeroDistance: real)

  /** The record `calculateBallistics` returns. */
  datatype BallisticsResult = BallisticsResult(
    drop: real,
    windDrift: real,
    impactVelocity: real,
    impactEnergy: real,
    timeOfFlight: real,
    trajectory: seq<Point>,
    zeroDrop: real)

  function ShotWind(p: ShotParameters, trig: Trig): Wind
  {
    WindComponents(p.windSpeed, p.windAngle, trig)
  }

  function ShotVelocity(p: ShotParameters, trig: Trig): real
  {
    AdjustedVelocity(p.velocity, ShotWind(p, trig).headTail)
  }

  /** What the calculation needs and the source does not check: a non-zero
      adjusted velocity and ballistic coefficient (both are divisors), a
      non-zero zero range (the first sample divides by it), and a non-zero
      curve range (with a zero step the sampling loop never ends). */
  predicate Computable(p: ShotParameters, trig: Trig)
  {
    && ShotVelocity(p, trig) != 0.0
    && p.bc != 0.0
    && p.zeroDistance != 0.0
    && CurveRange(p.distance, p.zeroDistance) != 0.0
  }

  /** The result of a calculation over exact reals. */
  function CalculateBallistics(p: ShotParameters, trig: Trig): (r: BallisticsResult)
    requires Computable(p, trig)
    ensures r.zeroDrop >= 0.0
    ensures p.distance == p.zeroDistance ==> r.drop == 0.0
    ensures p.windSpeed == 0.0 ==> r.windDrift == 0.0
    ensures r.impactVelocity >= 0.0
    ensures p.weight >= 0.0 ==> r.impactEnergy >= 0.0
    ensures CurveRange(p.distance, p.zeroDistance) > 0.0 ==> |r.trajectory| == Steps + 1
    ensures CurveRange(p.distance, p.zeroDistance) < 0.0 ==> r.trajectory == []
  {
    var wind := ShotWind(p, trig);
    var v := AdjustedVelocity(p.velocity, wind.headTail);
    var dropAtZero := FreeFallDrop(p.zeroDistance, v);
    var timeOfFlight := FlightTime(p.distance, v);
    var drop := ZeroCorrectedDrop(p.distance, p.zeroDistance, v);
    var windDrift := WindDrift(wind.cross, timeOfFlight);
    var impactVelocity := ImpactVelocity(v, p.distance, p.bc);
    var impactEnergy := ImpactEnergy(p.weight, impactVelocity);
    BallisticsResult(drop, windDrift, impactVelocity, impactEnergy, timeOfFlight,
                     Curve(p.distance, p.zeroDistance, v), dropAtZero)
  }

  /** How the fields of a result relate to each other and to the adjusted
      velocity: the flight time covers the distance, the drop and the zero
      drop add up to the free-fall drop at the target, the drift is the cross
      wind over the flight time, and the energy is the kinetic energy at the
      impact velocity. The zero drop, the drop and the curve are the values of
      the members whose lemmas describe them. */
  lemma ResultRelations(p: ShotParameters, trig: Trig)
    requires Computable(p, trig)
    ensures var r, v := CalculateBallistics(p, trig), ShotVelocity(p, trig);
      && r.timeOfFlight * v == p.distance
      && r.zeroDrop == FreeFallDrop(p.zeroDistance, v)
      && r.drop == ZeroCorrectedDrop(p.distance, p.zeroDistance, v)
      && r.drop + r.zeroDrop == FreeFallDrop(p.distance, v)
      && r.trajectory == Curve(p.distance, p.zeroDistance, v)
      && r.windDrift == ShotWind(p, trig).cross * r.timeOfFlight * CentimetresPerMetre
      && r.impactEnergy == 0.5 * (p.weight / GramsPerKilogram) * (r.impactVelocity * r.impactVelocity)
  {
    var r, v := CalculateBallistics(p, trig), ShotVelocity(p, trig);
    assert r.timeOfFlight == FlightTime(p.distance, v);
    assert r.drop == ZeroCorrectedDrop(p.distance, p.zeroDistance, v);
    assert r.zeroDrop == FreeFallDrop(p.zeroDistance, v);
    assert r.windDrift == WindDrift(ShotWind(p, trig).cross, r.timeOfFlight);
    assert r.impactEnergy == ImpactEnergy(p.weight, r.impactVelocity);
  }

  /** The calculation as the source performs it: the scalar results in
      sequence, then the sampling loop for the curve. The scalar steps are the
      same calls as in `CalculateBallistics`; what this method adds is running
      the loop `SampleTrajectory` in place of the function `Curve`, so its
      postcondition says that the loop yields the specified curve, not
      anything new about the scalar results. */
  method ComputeBallistics(p: ShotParameters, trig: Trig) returns (r: BallisticsResult)
    requires Computable(p, trig)
    ensures r == CalculateBallistics(p, trig)
  {
    var wind := WindComponents(p.windSpeed, p.windAngle, trig);
    var adjustedVelocity := AdjustedVelocity(p.velocity, wind.headTail);
    var dropAtZero := FreeFallDrop(p.zeroDistance, adjustedVelocity);
    var timeOfFlight := FlightTime(p.distance, adjustedVelocity);
    var drop := ZeroCorrectedDrop(p.distance, p.zeroDistance, adjustedVelocity);
    var windDrift := WindDrift(wind.cross, timeOfFlight);
    var impactVelocity := ImpactVelocity(adjustedVelocity, p.distance, p.bc);
    var impactEnergy := ImpactEnergy(p.weight, impactVelocity);
    var trajectory := SampleTrajectory(p.distance, p.zeroDistance, adjustedVelocity);
    r := BallisticsResult(drop, windDrift, impactVelocity, impactEnergy, timeOfFlight, trajectory, dropAtZero);
  }

  /** A worked example: an 800 m/s, 9 g projectile with coefficient 0.5
      at 300 m, zeroed at 100 m, in a 5 m/s wind from 90 degrees (pure cross
      wind): all scalar results are exact. */
  lemma WorkedExample(trig: Trig)
    requires trig.sin(Radians(90.0, trig.pi)) == 1.0 && trig.cos(Radians(90.0, trig.pi)) == 0.0
    ensures var r := CalculateBallistics(ShotParameters(800.0, 9.0, 0.5, 300.0, 5.0, 90.0, 100.0), trig);
      && r.timeOfFlight == 0.375
      && r.zeroDrop == 7.6640625
      && r.drop == 61.3125
      && r.windDrift == 187.5
      && r.impactVelocity == 794.0
      && r.impactEnergy == 2836.962
      && |r.trajectory| == 21
  {
    var p := ShotParameters(800.0, 9.0, 0.5, 300.0, 5.0, 90.0, 100.0);
    assert ShotWind(p, trig) == Wind(5.0, 0.0);
    assert ShotVelocity(p, trig) == 800.0;
  }

  /** A form field after `parseFloat`: a number, or NaN when its text does not
      start with one. */
  datatype Parsed = Number(value: real) | NaN

  /** The seven fields as read from the form. */
  datatype FormFields = FormFields(
    velocity: Parsed,
    weight: Parsed,
    bc: Parsed,
    distance: Parsed,
    windSpeed: Parsed,
    windAngle: Parsed,
    zeroDistance: Parsed)

  function Fields(f: FormFields): seq<Parsed>
  {
    [f.velocity, f.weight, f.bc, f.distance, f.windSpeed, f.windAngle, f.zeroDistance]
  }

  /** The guard of `calculateTrajectory`: some field is NaN. */
  predicate AnyNaN(f: FormFields)
  {
    f.velocity.NaN? || f.weight.NaN? || f.bc.NaN? || f.distance.NaN? ||
    f.windSpeed.NaN? || f.windAngle.NaN? || f.zeroDistance.NaN?
  }

  function Parameters(f: FormFields): (p: ShotParameters)
    requires !AnyNaN(f)
    ensures Fields(f) == [Number(p.velocity), Number(p.weight), Number(p.bc), Number(p.distance),
                          Number(p.windSpeed), Number(p.windAngle), Number(p.zeroDistance)]
  {
    ShotParameters(f.velocity.value, f.weight.value, f.bc.value, f.distance.value,
                   f.windSpeed.value, f.windAngle.value, f.zeroDistance.value)
  }

  /** What a calculation request produces: the single error kind, with no
      result at all, or a complete result. */
  datatype Outcome = InvalidInput | Calculated(result: BallisticsResult)

  /** A calculation request: nothing is calculated when any of the seven
      fields is NaN; otherwise the calculation runs on the parsed values. */
  function CalculateTrajectory(f: FormFields, trig: Trig): (o: Outcome)
    requires !AnyNaN(f) ==> Computable(Parameters(f), trig)
    ensures o.InvalidInput? <==> exists i :: 0 <= i < |Fields(f)| && Fields(f)[i].NaN?
    ensures o.Calculated? ==> !AnyNaN(f) && o.result == CalculateBallistics(Parameters(f), trig)
  {
    if AnyNaN(f) then
      assert Fields(f)[0].NaN? || Fields(f)[1].NaN? || Fields(f)[2].NaN? || Fields(f)[3].NaN? ||
             Fields(f)[4].NaN? || Fields(f)[5].NaN? || Fields(f)[6].NaN?;
      InvalidInput
    else
      Calculated(CalculateBallistics(Parameters(f), trig))
  }
}
