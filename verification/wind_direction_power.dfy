/** WindDirectionPower: the power of every turbine for one wind direction,
    and the direction's total.

    Power comes either from the power curve (cubic ramp from cut-in to rated
    wind speed, flat up to cut-out, zero elsewhere) or from the power
    coefficient `Cp` (clamped to rated power unless rotor components are in
    use, zero below cut-in). The `Cp` in effect and its slope with respect to
    the wind speed are inputs of each turbine. */
module WindDirectionPower {
  import opened Linear

  /** The inputs of one turbine. `cp` is the power coefficient in effect.
      When `cpFromCurve` holds (`cp_points > 1`) it is read from a curve of
      the wind speed, the component's `Cp` input is ignored, and `cpSlope` is
      the curve's `dCp/dV`; otherwise `cp` is the `Cp` input and `cpSlope` is
      not used. */
  datatype Turbine = Turbine(
    velocity: real,
    rotorDiameter: real,
    cp: real,
    cpFromCurve: bool,
    cpSlope: real,
    generatorEfficiency: real,
    ratedPower: real,
    cutInSpeed: real,
    ratedWindSpeed: real,
    cutOutSpeed: real)
  {
    /** `dCpdV` as `linearize` computes it: the curve's slope, or zero for a
        given `Cp`. */
    function CpCurveSlope(): real
    {
      if cpFromCurve then cpSlope else 0.0
    }

    /** The second-order term of `Cp` along its curve: `e`, or zero for a
        given `Cp`. */
    function CpCurveRemainder(e: real): real
    {
      if cpFromCurve then e else 0.0
    }
  }

  /** `use_power_curve_definition`, or the power coefficient with or without
      rotor components. */
  datatype Mode = PowerCurve | Coefficient(useRotorComponents: bool)

  // ---------------------------------------------------------------------
  // Power-curve mode

  /** The branch of the power curve a wind speed `v` falls on. */
  datatype CurveRegion = Ramp | Rated | Idle

  function CurveRegionOf(v: real, cutIn: real, ratedSpeed: real, cutOut: real): CurveRegion
  {
    if cutIn <= v < ratedSpeed then Ramp
    else if ratedSpeed <= v < cutOut then Rated
    else Idle
  }

  /** How far along the ramp from cut-in to rated wind speed `v` is. */
  function RampFraction(v: real, cutIn: real, ratedSpeed: real): real
    requires cutIn < ratedSpeed
  {
    (v - cutIn) / (ratedSpeed - cutIn)
  }

  /** The power curve: the cube of the ramp fraction times rated power from
      cut-in up to rated wind speed, rated power from there up to cut-out,
      zero elsewhere. */
  function CurvePower(v: real, cutIn: real, ratedSpeed: real, cutOut: real, rated: real): real
  {
    match CurveRegionOf(v, cutIn, ratedSpeed, cutOut)
    case Ramp => rated * Cube(RampFraction(v, cutIn, ratedSpeed))
    case Rated => rated
    case Idle => 0.0
  }

  /** `dwtPower_dwtVelocity[n, n]` in power-curve mode. */
  function CurveSlope(v: real, cutIn: real, ratedSpeed: real, cutOut: real, rated: real): real
  {
    match CurveRegionOf(v, cutIn, ratedSpeed, cutOut)
    case Ramp =>
      3.0 * rated * Square(RampFraction(v, cutIn, ratedSpeed)) * (1.0 / (ratedSpeed - cutIn))
    case Rated => 0.0
    case Idle => 0.0
  }

  /** The second-order term of the power curve for a step `h` of the wind speed. */
  function CurveRemainder(v: real, cutIn: real, ratedSpeed: real, cutOut: real, rated: real, h: real): real
  {
    match CurveRegionOf(v, cutIn, ratedSpeed, cutOut)
    case Ramp =>
      var w := ratedSpeed - cutIn;
      rated * (3.0 * RampFraction(v, cutIn, ratedSpeed) + h / w) / (w * w)
    case Rated => 0.0
    case Idle => 0.0
  }

  /** Multiplying by a non-negative factor keeps an order. */
  lemma ScaleMonotone(x: real, y: real, z: real)
    requires x >= 0.0 && y <= z
    ensures x * y <= x * z
  {
  }

  lemma FractionInUnit(v: real, cutIn: real, ratedSpeed: real)
    requires cutIn <= v < ratedSpeed
    ensures 0.0 <= RampFraction(v, cutIn, ratedSpeed) <= 1.0
  {
    var w := ratedSpeed - cutIn;
    var a := (v - cutIn) / w;
    assert a * w == v - cutIn;
    assert v - cutIn < w;
  }

  lemma CubeOfFraction(a: real, r: real)
    requires 0.0 <= a <= 1.0
    ensures 0.0 <= Cube(a) <= 1.0
    ensures r >= 0.0 ==> 0.0 <= r * Cube(a) <= r
  {
    ScaleMonotone(a, a, 1.0);
    assert a * a <= a * 1.0 == a;
    ScaleMonotone(a, 0.0, a);
    assert 0.0 == a * 0.0 <= a * a;
    ScaleMonotone(a * a, a, 1.0);
    assert a * a * a <= a * a * 1.0 == a * a;
    ScaleMonotone(a * a, 0.0, a);
    assert 0.0 == a * a * 0.0 <= a * a * a;
    if r >= 0.0 {
      ScaleMonotone(r, Cube(a), 1.0);
      assert r * Cube(a) <= r * 1.0 == r;
      ScaleMonotone(r, 0.0, Cube(a));
      assert 0.0 == r * 0.0 <= r * Cube(a);
    }
  }

  lemma CubeMonotone(a: real, b: real)
    requires 0.0 <= a <= b
    ensures Cube(a) <= Cube(b)
  {
    ScaleMonotone(a, a, b);
    ScaleMonotone(b, a, b);
    assert a * a <= a * b == b * a <= b * b;
    ScaleMonotone(a * a, a, b);
    ScaleMonotone(b, a * a, b * b);
    assert a * a * a <= a * a * b == b * (a * a) <= b * (b * b) == b * b * b;
  }

  /** The power curve lies between 0 and rated power; it is zero past
      cut-out and below both cut-in and rated wind speed, and it is rated
      power from rated wind speed up to cut-out. */
  lemma CurvePowerRange(v: real, cutIn: real, ratedSpeed: real, cutOut: real, rated: real)
    ensures var p := CurvePower(v, cutIn, ratedSpeed, cutOut, rated);
      && (rated >= 0.0 ==> 0.0 <= p <= rated)
      && (v < cutIn && v < ratedSpeed ==> p == 0.0)
      && (ratedSpeed <= cutOut <= v ==> p == 0.0)
      && (ratedSpeed <= v < cutOut ==> p == rated)
  {
    if CurveRegionOf(v, cutIn, ratedSpeed, cutOut) == Ramp {
      FractionInUnit(v, cutIn, ratedSpeed);
      CubeOfFraction(RampFraction(v, cutIn, ratedSpeed), rated);
    }
  }

  /** On the ramp the power is rated power times the cube of the ramp fraction. */
  lemma RampPower(v: real, cutIn: real, ratedSpeed: real, cutOut: real, rated: real)
    requires cutIn <= v < ratedSpeed
    ensures CurvePower(v, cutIn, ratedSpeed, cutOut, rated) == rated * Cube(RampFraction(v, cutIn, ratedSpeed))
  {
  }

  /** On the ramp the slope and the second-order term are those of the cube of
      the ramp fraction. */
  lemma RampSlope(v: real, h: real, cutIn: real, ratedSpeed: real, cutOut: real, rated: real)
    requires cutIn <= v < ratedSpeed
    ensures CurveSlope(v, cutIn, ratedSpeed, cutOut, rated)
              == 3.0 * rated * Square(RampFraction(v, cutIn, ratedSpeed)) * (1.0 / (ratedSpeed - cutIn))
    ensures CurveRemainder(v, cutIn, ratedSpeed, cutOut, rated, h)
              == rated * (3.0 * RampFraction(v, cutIn, ratedSpeed) + h / (ratedSpeed - cutIn)) / ((ratedSpeed - cutIn) * (ratedSpeed - cutIn))
  {
  }

  lemma ScaledCubeMonotone(r: real, a: real, b: real)
    requires r >= 0.0 && 0.0 <= a <= b
    ensures r * Cube(a) <= r * Cube(b)
  {
    CubeMonotone(a, b);
    ScaleMonotone(r, Cube(a), Cube(b));
  }

  /** Along the ramp the power curve never falls as the wind speed rises. */
  lemma RampPowerMonotone(v: real, faster: real, cutIn: real, ratedSpeed: real, cutOut: real, rated: real)
    requires rated >= 0.0 && cutIn <= v <= faster < ratedSpeed
    ensures CurvePower(v, cutIn, ratedSpeed, cutOut, rated) <= CurvePower(faster, cutIn, ratedSpeed, cutOut, rated)
  {
    RampPower(v, cutIn, ratedSpeed, cutOut, rated);
    RampPower(faster, cutIn, ratedSpeed, cutOut, rated);
    RampFractionMonotone(v, faster, cutIn, ratedSpeed);
    ScaledCubeMonotone(rated, RampFraction(v, cutIn, ratedSpeed), RampFraction(faster, cutIn, ratedSpeed));
  }

  /** Up to cut-out, with the ramp below the rated wind speed, the power curve
      never falls as the wind speed rises. */
  lemma CurvePowerMonotone(v: real, faster: real, cutIn: real, ratedSpeed: real, cutOut: real, rated: real)
    requires cutIn < ratedSpeed <= cutOut && rated >= 0.0
    requires cutIn <= v <= faster < cutOut
    ensures CurvePower(v, cutIn, ratedSpeed, cutOut, rated) <= CurvePower(faster, cutIn, ratedSpeed, cutOut, rated)
  {
    CurvePowerRange(v, cutIn, ratedSpeed, cutOut, rated);
    CurvePowerRange(faster, cutIn, ratedSpeed, cutOut, rated);
    if faster < ratedSpeed {
      RampPowerMonotone(v, faster, cutIn, ratedSpeed, cutOut, rated);
    }
  }

  lemma RampFractionMonotone(v: real, faster: real, cutIn: real, ratedSpeed: real)
    requires cutIn < ratedSpeed
    requires cutIn <= v <= faster
    ensures 0.0 <= RampFraction(v, cutIn, ratedSpeed) <= RampFraction(faster, cutIn, ratedSpeed)
  {
    var w := ratedSpeed - cutIn;
    FractionShift(v, faster - v, cutIn, ratedSpeed);
    assert v + (faster - v) == faster;
    assert (faster - v) / w >= 0.0;
  }

  /** A step `h` of the wind speed moves the ramp fraction by `h` over the
      width of the ramp. */
  lemma FractionShift(v: real, h: real, cutIn: real, ratedSpeed: real)
    requires cutIn < ratedSpeed
    ensures RampFraction(v + h, cutIn, ratedSpeed) == RampFraction(v, cutIn, ratedSpeed) + h / (ratedSpeed - cutIn)
  {
    var w := ratedSpeed - cutIn;
    assert (v + h - cutIn) / w == (v - cutIn) / w + h / w;
  }

  /** The cube of a shifted fraction, expanded to second order. */
  lemma RampExpansion(r: real, a: real, w: real, h: real)
    requires w > 0.0
    ensures TaylorStep(r * Cube(a), r * Cube(a + h / w), 3.0 * r * Square(a) * (1.0 / w), h, r * (3.0 * a + h / w) / (w * w))
  {
    var b := h / w;
    assert h == b * w;
    assert Cube(a + b) == Cube(a) + 3.0 * Square(a) * b + b * b * (3.0 * a + b);
    assert h * (3.0 * r * Square(a) * (1.0 / w)) == 3.0 * r * Square(a) * b;
    assert h * h * (r * (3.0 * a + b) / (w * w)) == r * b * b * (3.0 * a + b);
  }

  /** `RampExpansion` for quantities known to equal its terms. */
  lemma RampExpansionOf(r: real, a: real, b: real, w: real, h: real, before: real, after: real, slope: real, q: real)
    requires w > 0.0
    requires b == a + h / w
    requires before == r * Cube(a)
    requires after == r * Cube(b)
    requires slope == 3.0 * r * Square(a) * (1.0 / w)
    requires q == r * (3.0 * a + h / w) / (w * w)
    ensures TaylorStep(before, after, slope, h, q)
  {
    RampExpansion(r, a, w, h);
  }

  lemma RampStep(v: real, h: real, cutIn: real, ratedSpeed: real, cutOut: real, rated: real)
    requires cutIn <= v < ratedSpeed && cutIn <= v + h < ratedSpeed
    ensures TaylorStep(CurvePower(v, cutIn, ratedSpeed, cutOut, rated), CurvePower(v + h, cutIn, ratedSpeed, cutOut, rated),
                       CurveSlope(v, cutIn, ratedSpeed, cutOut, rated), h,
                       CurveRemainder(v, cutIn, ratedSpeed, cutOut, rated, h))
  {
    var w := ratedSpeed - cutIn;
    var a := RampFraction(v, cutIn, ratedSpeed);
    RampPower(v, cutIn, ratedSpeed, cutOut, rated);
    RampPower(v + h, cutIn, ratedSpeed, cutOut, rated);
    RampSlope(v, h, cutIn, ratedSpeed, cutOut, rated);
    FractionShift(v, h, cutIn, ratedSpeed);
    RampExpansionOf(rated, a, RampFraction(v + h, cutIn, ratedSpeed), w, h,
                    CurvePower(v, cutIn, ratedSpeed, cutOut, rated), CurvePower(v + h, cutIn, ratedSpeed, cutOut, rated),
                    CurveSlope(v, cutIn, ratedSpeed, cutOut, rated), CurveRemainder(v, cutIn, ratedSpeed, cutOut, rated, h));
  }

  /** `CurveSlope` is the derivative of `CurvePower`: a step that stays on the
      same branch of the curve moves the power by the slope times the step, up
      to `CurveRemainder`. */
  lemma CurveSlopeIsDerivative(v: real, h: real, cutIn: real, ratedSpeed: real, cutOut: real, rated: real)
    requires CurveRegionOf(v + h, cutIn, ratedSpeed, cutOut) == CurveRegionOf(v, cutIn, ratedSpeed, cutOut)
    ensures TaylorStep(CurvePower(v, cutIn, ratedSpeed, cutOut, rated), CurvePower(v + h, cutIn, ratedSpeed, cutOut, rated),
                       CurveSlope(v, cutIn, ratedSpeed, cutOut, rated), h,
                       CurveRemainder(v, cutIn, ratedSpeed, cutOut, rated, h))
  {
    match CurveRegionOf(v, cutIn, ratedSpeed, cutOut)
    case Ramp =>
      RampStep(v, h, cutIn, ratedSpeed, cutOut, rated);
    case Rated =>
      FlatStep(rated, h);
    case Idle =>
      FlatStep(0.0, h);
  }

  /** A quantity that does not move has slope and remainder zero. */
  lemma FlatStep(p: real, h: real)
    ensures TaylorStep(p, p, 0.0, h, 0.0)
  {
  }

  // ---------------------------------------------------------------------
  // Power-coefficient mode

  /** The swept area `pi D^2 / 4` of a rotor of diameter `d`. */
  function RotorArea(d: real): real { 0.25 * Pi * Square(d) }

  /** `d(RotorArea)/dD`, as the gradient writes it. */
  function AreaSlope(d: real): real { 0.5 * Pi * d }

  /** The power in kW before the rated clamp and the cut-in rule:
      `eta * (rho A Cp V^3 / 2) / 1000`. */
  function RawPower(eta: real, rho: real, d: real, cp: real, v: real): real
  {
    eta * (0.5 * rho * RotorArea(d) * cp * Cube(v)) / 1000.0
  }

  /** The branch of the power-coefficient rule a turbine is on: below cut-in,
      clamped to rated power, or producing its raw power. */
  datatype CoefficientRegion = Stopped | Clamped | Producing

  function CoefficientRegionOf(raw: real, rated: real, v: real, cutIn: real, useRotorComponents: bool): CoefficientRegion
  {
    if v < cutIn then Stopped
    else if !useRotorComponents && raw >= rated then Clamped
    else Producing
  }

  /** The clamp to rated power (skipped with rotor components), then zero
      below cut-in. */
  function CoefficientPower(raw: real, rated: real, v: real, cutIn: real, useRotorComponents: bool): real
  {
    var clamped := if !useRotorComponents && raw >= rated then rated else raw;
    if v < cutIn then 0.0 else clamped
  }

  /** The clamp and the cut-in rule, region by region: zero below cut-in,
      rated power when clamped, the raw power otherwise; never above rated
      power without rotor components, and never negative when the raw power
      and rated power are not. */
  lemma CoefficientPowerRange(raw: real, rated: real, v: real, cutIn: real, useRotorComponents: bool)
    ensures var p := CoefficientPower(raw, rated, v, cutIn, useRotorComponents);
      && (CoefficientRegionOf(raw, rated, v, cutIn, useRotorComponents) == Stopped <==> v < cutIn)
      && (CoefficientRegionOf(raw, rated, v, cutIn, useRotorComponents) == Stopped ==> p == 0.0)
      && (CoefficientRegionOf(raw, rated, v, cutIn, useRotorComponents) == Clamped ==> p == rated)
      && (CoefficientRegionOf(raw, rated, v, cutIn, useRotorComponents) == Producing ==> p == raw)
      && (!useRotorComponents && v >= cutIn ==> p <= rated)
      && (raw >= 0.0 && rated >= 0.0 ==> p >= 0.0)
  {
  }

  /** The factor `eta rho A / 2000` that turns `Cp V^3` into kW. */
  function PowerFactor(eta: real, rho: real, d: real): real
  {
    eta * 0.5 * rho * RotorArea(d) / 1000.0
  }

  /** `dwtPower_dwtVelocity[i][i]` before masking, with `s = dCp/dV`:
      `eta rho A (3 Cp V^2 + V^3 dCp/dV) / 2000`. */
  function VelocitySlope(eta: real, rho: real, d: real, cp: real, s: real, v: real): real
  {
    PowerFactor(eta, rho, d) * (3.0 * cp * Square(v) + Cube(v) * s)
  }

  /** `dwtPower_dCp[i][i]` before masking. */
  function CpSlope(eta: real, rho: real, d: real, v: real): real
  {
    eta * (0.5 * rho * RotorArea(d) * Cube(v)) / 1000.0
  }

  /** `dwtPower_drotorDiameter[i][i]` before masking. */
  function DiameterSlope(eta: real, rho: real, d: real, cp: real, v: real): real
  {
    eta * (0.5 * rho * AreaSlope(d) * cp * Cube(v)) / 1000.0
  }

  /** The raw power is linear in `Cp`: `CpSlope` is exact. */
  lemma RawPowerCpStep(eta: real, rho: real, d: real, cp: real, v: real, h: real)
    ensures TaylorStep(RawPower(eta, rho, d, cp, v), RawPower(eta, rho, d, cp + h, v), CpSlope(eta, rho, d, v), h, 0.0)
  {
  }

  /** The second-order term of the raw power in the rotor diameter. */
  function DiameterRemainder(eta: real, rho: real, cp: real, v: real): real
  {
    eta * (0.5 * rho * (0.25 * Pi) * cp * Cube(v)) / 1000.0
  }

  lemma RawPowerDiameterStep(eta: real, rho: real, d: real, cp: real, v: real, h: real)
    ensures TaylorStep(RawPower(eta, rho, d, cp, v), RawPower(eta, rho, d + h, cp, v),
                       DiameterSlope(eta, rho, d, cp, v), h, DiameterRemainder(eta, rho, cp, v))
  {
  }

  /** The second-order term of the raw power in the wind speed, when `Cp`
      moves with it as `cp + h s + h^2 e`. */
  function VelocityRemainder(eta: real, rho: real, d: real, cp: real, s: real, e: real, v: real, h: real): real
  {
    PowerFactor(eta, rho, d) * (cp * (3.0 * v + h) + s * (3.0 * Square(v) + 3.0 * v * h + h * h) + e * Cube(v + h))
  }

  lemma RawPowerVelocityStep(eta: real, rho: real, d: real, cp: real, s: real, e: real, v: real, h: real)
    ensures TaylorStep(RawPower(eta, rho, d, cp, v), RawPower(eta, rho, d, cp + h * s + h * h * e, v + h),
                       VelocitySlope(eta, rho, d, cp, s, v), h, VelocityRemainder(eta, rho, d, cp, s, e, v, h))
  {
    RawPowerFactored(eta, rho, d, cp, v);
    RawPowerFactored(eta, rho, d, cp + h * s + h * h * e, v + h);
    CubeTimesCpStep(cp, s, e, v, h);
    ScaledStepOf(PowerFactor(eta, rho, d), cp * Cube(v), (cp + h * s + h * h * e) * Cube(v + h),
                 3.0 * cp * Square(v) + Cube(v) * s, h,
                 cp * (3.0 * v + h) + s * (3.0 * Square(v) + 3.0 * v * h + h * h) + e * Cube(v + h),
                 RawPower(eta, rho, d, cp, v), RawPower(eta, rho, d, cp + h * s + h * h * e, v + h));
  }

  lemma RawPowerFactored(eta: real, rho: real, d: real, cp: real, v: real)
    ensures RawPower(eta, rho, d, cp, v) == PowerFactor(eta, rho, d) * (cp * Cube(v))
  {
  }

  /** `Cp V^3` expanded to second order when `Cp` moves as `cp + h s + h^2 e`. */
  lemma CubeTimesCpStep(cp: real, s: real, e: real, v: real, h: real)
    ensures TaylorStep(cp * Cube(v), (cp + h * s + h * h * e) * Cube(v + h), 3.0 * cp * Square(v) + Cube(v) * s, h,
                       cp * (3.0 * v + h) + s * (3.0 * Square(v) + 3.0 * v * h + h * h) + e * Cube(v + h))
  {
    assert Cube(v + h) == Cube(v) + 3.0 * Square(v) * h + 3.0 * v * h * h + h * h * h;
  }

  /** A step scales with the quantity. */
  lemma ScaledStepOf(k: real, before: real, after: real, slope: real, h: real, q: real, kBefore: real, kAfter: real)
    requires TaylorStep(before, after, slope, h, q)
    requires kBefore == k * before && kAfter == k * after
    ensures TaylorStep(kBefore, kAfter, k * slope, h, k * q)
  {
    assert k * after == k * before + k * (h * slope) + k * (h * h * q);
  }

  /** With non-negative efficiency, air density, `Cp` and wind speed the raw
      power is non-negative. */
  lemma RawPowerNonnegative(eta: real, rho: real, d: real, cp: real, v: real)
    requires eta >= 0.0 && rho >= 0.0 && cp >= 0.0 && v >= 0.0
    ensures RawPower(eta, rho, d, cp, v) >= 0.0
  {
    RawPowerFactored(eta, rho, d, cp, v);
    var k := PowerFactor(eta, rho, d);
    SquareNonnegative(d);
    ProductNonnegative(eta * 0.5, rho);
    ProductNonnegative(eta * 0.5 * rho, RotorArea(d));
    assert k >= 0.0;
    ProductNonnegative(v, v);
    ProductNonnegative(v * v, v);
    ProductNonnegative(cp, Cube(v));
    ProductNonnegative(k, cp * Cube(v));
  }

  lemma ProductNonnegative(a: real, b: real)
    requires a >= 0.0 && b >= 0.0
    ensures a * b >= 0.0
  {
    ScaleMonotone(a, 0.0, b);
  }

  // ---------------------------------------------------------------------
  // One turbine

  /** The turbine's power for the mode, in kW. */
  function TurbinePower(t: Turbine, airDensity: real, mode: Mode): real
  {
    match mode
    case PowerCurve => CurvePower(t.velocity, t.cutInSpeed, t.ratedWindSpeed, t.cutOutSpeed, t.ratedPower)
    case Coefficient(useRotorComponents) =>
      CoefficientPower(Raw(t, airDensity), t.ratedPower, t.velocity, t.cutInSpeed, useRotorComponents)
  }

  function Raw(t: Turbine, airDensity: real): real
  {
    RawPower(t.generatorEfficiency, airDensity, t.rotorDiameter, t.cp, t.velocity)
  }

  /** The inputs a Jacobian block differentiates with respect to. */
  datatype Input = Velocity | PowerCoefficient | Diameter

  /** The turbine after a step `h` of one input. A step of the wind speed also
      moves a curve's `Cp` along the curve, to second order `e`. A step of the
      `Cp` input moves nothing when `Cp` is read from a curve, since the
      forward pass then overwrites it. */
  function Step(t: Turbine, x: Input, h: real, e: real): Turbine
  {
    match x
    case Velocity =>
      t.(velocity := t.velocity + h, cp := t.cp + h * t.CpCurveSlope() + h * h * t.CpCurveRemainder(e))
    case PowerCoefficient => if t.cpFromCurve then t else t.(cp := t.cp + h)
    case Diameter => t.(rotorDiameter := t.rotorDiameter + h)
  }

  /** The branch of its power rule the turbine is on, in either mode. */
  datatype Branch = OnCurve(curve: CurveRegion) | OnCoefficient(coefficient: CoefficientRegion)

  function BranchOf(t: Turbine, airDensity: real, mode: Mode): Branch
  {
    match mode
    case PowerCurve => OnCurve(CurveRegionOf(t.velocity, t.cutInSpeed, t.ratedWindSpeed, t.cutOutSpeed))
    case Coefficient(useRotorComponents) =>
      OnCoefficient(CoefficientRegionOf(Raw(t, airDensity), t.ratedPower, t.velocity, t.cutInSpeed, useRotorComponents))
  }

  /** Whether the turbine's power is flat in its inputs, so its gradient
      entries are zero: below cut-in or clamped to rated power in coefficient
      mode. */
  predicate Flat(t: Turbine, airDensity: real, mode: Mode)
  {
    mode.Coefficient? && BranchOf(t, airDensity, mode) != OnCoefficient(Producing)
  }

  /** The gradient entry `linearize` computes for input `x`, before masking.
      The `Cp` entry is the raw power's slope in `Cp` whether or not the
      forward pass reads `Cp` from a curve. */
  function RawSlope(t: Turbine, airDensity: real, x: Input): real
  {
    match x
    case Velocity => VelocitySlope(t.generatorEfficiency, airDensity, t.rotorDiameter, t.cp, t.CpCurveSlope(), t.velocity)
    case PowerCoefficient => CpSlope(t.generatorEfficiency, airDensity, t.rotorDiameter, t.velocity)
    case Diameter => DiameterSlope(t.generatorEfficiency, airDensity, t.rotorDiameter, t.cp, t.velocity)
  }

  /** The second-order term of the raw power for a step `h` of input `x`. */
  function RawRemainder(t: Turbine, airDensity: real, x: Input, h: real, e: real): real
  {
    match x
    case Velocity =>
      VelocityRemainder(t.generatorEfficiency, airDensity, t.rotorDiameter, t.cp, t.CpCurveSlope(), t.CpCurveRemainder(e), t.velocity, h)
    case PowerCoefficient => 0.0
    case Diameter => DiameterRemainder(t.generatorEfficiency, airDensity, t.cp, t.velocity)
  }

  /** The turbine's gradient entry for input `x`; `zeroed` says whether
      coefficient mode masks it. */
  function Slope(t: Turbine, airDensity: real, mode: Mode, x: Input, zeroed: bool): real
  {
    match mode
    case PowerCurve =>
      if x == Velocity then CurveSlope(t.velocity, t.cutInSpeed, t.ratedWindSpeed, t.cutOutSpeed, t.ratedPower) else 0.0
    case Coefficient(_) =>
      if zeroed then 0.0 else RawSlope(t, airDensity, x)
  }

  /** The second-order term of the turbine's power for a step `h` of input `x`. */
  function Remainder(t: Turbine, airDensity: real, mode: Mode, x: Input, h: real, e: real): real
  {
    match mode
    case PowerCurve =>
      if x == Velocity then CurveRemainder(t.velocity, t.cutInSpeed, t.ratedWindSpeed, t.cutOutSpeed, t.ratedPower, h) else 0.0
    case Coefficient(_) =>
      if Flat(t, airDensity, mode) then 0.0 else RawRemainder(t, airDensity, x, h, e)
  }

  /** Whether the entry for input `x` must be zero for the power rule: the
      turbine is flat, or `x` is the `Cp` input and the forward pass ignores
      it because `Cp` comes from a curve. */
  predicate ZeroedFor(t: Turbine, airDensity: real, mode: Mode, x: Input)
  {
    Flat(t, airDensity, mode) || (x == PowerCoefficient && t.cpFromCurve)
  }

  /** With the mask `ZeroedFor`, `Slope` is the derivative of the turbine's
      power: a step that keeps the turbine on the same branch moves its power
      by the slope times the step, up to `Remainder`. */
  lemma TurbineStep(t: Turbine, airDensity: real, mode: Mode, x: Input, h: real, e: real)
    requires BranchOf(Step(t, x, h, e), airDensity, mode) == BranchOf(t, airDensity, mode)
    ensures TaylorStep(TurbinePower(t, airDensity, mode), TurbinePower(Step(t, x, h, e), airDensity, mode),
                       Slope(t, airDensity, mode, x, ZeroedFor(t, airDensity, mode, x)), h,
                       Remainder(t, airDensity, mode, x, h, e))
  {
    var t' := Step(t, x, h, e);
    match mode
    case PowerCurve =>
      if x == Velocity {
        CurveSlopeIsDerivative(t.velocity, h, t.cutInSpeed, t.ratedWindSpeed, t.cutOutSpeed, t.ratedPower);
      } else {
        FlatStep(TurbinePower(t, airDensity, mode), h);
      }
    case Coefficient(u) =>
      CoefficientStep(t, airDensity, u, x, h, e);
  }

  lemma CoefficientStep(t: Turbine, airDensity: real, u: bool, x: Input, h: real, e: real)
    requires BranchOf(Step(t, x, h, e), airDensity, Coefficient(u)) == BranchOf(t, airDensity, Coefficient(u))
    ensures TaylorStep(TurbinePower(t, airDensity, Coefficient(u)), TurbinePower(Step(t, x, h, e), airDensity, Coefficient(u)),
                       Slope(t, airDensity, Coefficient(u), x, ZeroedFor(t, airDensity, Coefficient(u), x)), h,
                       Remainder(t, airDensity, Coefficient(u), x, h, e))
  {
    var t' := Step(t, x, h, e);
    var mode := Coefficient(u);
    CoefficientPowerRange(Raw(t, airDensity), t.ratedPower, t.velocity, t.cutInSpeed, u);
    CoefficientPowerRange(Raw(t', airDensity), t'.ratedPower, t'.velocity, t'.cutInSpeed, u);
    match CoefficientRegionOf(Raw(t, airDensity), t.ratedPower, t.velocity, t.cutInSpeed, u)
    case Stopped =>
      FlatStep(0.0, h);
    case Clamped =>
      FlatStep(t.ratedPower, h);
    case Producing =>
      if x == PowerCoefficient && t.cpFromCurve {
        FlatStep(TurbinePower(t, airDensity, mode), h);
      } else {
        RawStep(t, airDensity, x, h, e);
      }
  }

  /** `RawSlope` is the derivative of the raw power, except in a `Cp` input
      the power ignores. */
  lemma RawStep(t: Turbine, airDensity: real, x: Input, h: real, e: real)
    requires !(x == PowerCoefficient && t.cpFromCurve)
    ensures TaylorStep(Raw(t, airDensity), Raw(Step(t, x, h, e), airDensity), RawSlope(t, airDensity, x), h,
                       RawRemainder(t, airDensity, x, h, e))
  {
    var eta, d := t.generatorEfficiency, t.rotorDiameter;
    match x
    case Velocity =>
      var s, e' := t.CpCurveSlope(), t.CpCurveRemainder(e);
      var cp' := t.cp + h * s + h * h * e';
      assert Raw(Step(t, x, h, e), airDensity) == RawPower(eta, airDensity, d, cp', t.velocity + h);
      RawPowerVelocityStep(eta, airDensity, d, t.cp, s, e', t.velocity, h);
    case PowerCoefficient =>
      RawPowerCpStep(eta, airDensity, d, t.cp, t.velocity, h);
    case Diameter =>
      RawPowerDiameterStep(eta, airDensity, d, t.cp, t.velocity, h);
  }

  // ---------------------------------------------------------------------
  // The wind direction: every turbine, and the total

  datatype Output = Output(wtPower: Vector, dirPower: real)

  /** `solve_nonlinear`: every turbine's power and the direction's total. */
  function Solve(turbines: seq<Turbine>, airDensity: real, mode: Mode): (o: Output)
    ensures |o.wtPower| == |turbines|
    ensures forall i :: 0 <= i < |turbines| ==> o.wtPower[i] == TurbinePower(turbines[i], airDensity, mode)
    ensures o.dirPower == Sum(o.wtPower)
  {
    var wtPower := seq(|turbines|, i requires 0 <= i < |turbines| => TurbinePower(turbines[i], airDensity, mode));
    Output(wtPower, Sum(wtPower))
  }

  /** A turbine that can only produce between 0 and its rated power. */
  predicate Physical(t: Turbine, airDensity: real)
  {
    && t.generatorEfficiency >= 0.0 && airDensity >= 0.0 && t.cp >= 0.0 && t.velocity >= 0.0
    && t.ratedPower >= 0.0
  }

  /** Every turbine's power lies between 0 and its rated power, except with
      rotor components, which skip the clamp. */
  lemma TurbinePowerRange(t: Turbine, airDensity: real, mode: Mode)
    requires Physical(t, airDensity)
    ensures 0.0 <= TurbinePower(t, airDensity, mode)
    ensures mode != Coefficient(true) ==> TurbinePower(t, airDensity, mode) <= t.ratedPower
  {
    match mode
    case PowerCurve =>
      CurvePowerRange(t.velocity, t.cutInSpeed, t.ratedWindSpeed, t.cutOutSpeed, t.ratedPower);
    case Coefficient(u) =>
      RawPowerNonnegative(t.generatorEfficiency, airDensity, t.rotorDiameter, t.cp, t.velocity);
      CoefficientPowerRange(Raw(t, airDensity), t.ratedPower, t.velocity, t.cutInSpeed, u);
  }

  function RatedPowers(turbines: seq<Turbine>): Vector
  {
    seq(|turbines|, i requires 0 <= i < |turbines| => turbines[i].ratedPower)
  }

  /** The direction's power is never negative and, without rotor components,
      never above the farm's total rated power. */
  lemma DirectionPowerRange(turbines: seq<Turbine>, airDensity: real, mode: Mode)
    requires forall i :: 0 <= i < |turbines| ==> Physical(turbines[i], airDensity)
    ensures 0.0 <= Solve(turbines, airDensity, mode).dirPower
    ensures mode != Coefficient(true) ==> Solve(turbines, airDensity, mode).dirPower <= Sum(RatedPowers(turbines))
  {
    var o := Solve(turbines, airDensity, mode);
    var zeros := Zeros(|turbines|);
    forall i | 0 <= i < |turbines|
      ensures zeros[i] <= o.wtPower[i]
      ensures mode != Coefficient(true) ==> o.wtPower[i] <= RatedPowers(turbines)[i]
    {
      TurbinePowerRange(turbines[i], airDensity, mode);
    }
    SumOfZeros(zeros);
    SumMonotone(zeros, o.wtPower);
    if mode != Coefficient(true) {
      SumMonotone(o.wtPower, RatedPowers(turbines));
    }
  }

  /** Changing one turbine changes only its own power, and moves the total by
      the same amount. */
  lemma SolveReplace(turbines: seq<Turbine>, airDensity: real, mode: Mode, k: nat, t: Turbine)
    requires k < |turbines|
    ensures var o, o' := Solve(turbines, airDensity, mode), Solve(turbines[k := t], airDensity, mode);
      && o'.wtPower == o.wtPower[k := TurbinePower(t, airDensity, mode)]
      && o'.dirPower == o.dirPower + (o'.wtPower[k] - o.wtPower[k])
  {
    var o, o' := Solve(turbines, airDensity, mode), Solve(turbines[k := t], airDensity, mode);
    var d := o'.wtPower[k] - o.wtPower[k];
    assert o'.wtPower == o.wtPower[k := o.wtPower[k] + d];
    SumUpdate(o.wtPower, k, d);
  }

  // ---------------------------------------------------------------------
  // The Jacobian

  /** The six blocks `linearize` fills: each turbine's power, and the
      direction's total, with respect to the wind speeds, the power
      coefficients and the rotor diameters. */
  datatype Jacobian = Jacobian(
    dPowerdVelocity: Matrix,
    dPowerdCp: Matrix,
    dPowerdDiameter: Matrix,
    dDirdVelocity: Matrix,
    dDirdCp: Matrix,
    dDirdDiameter: Matrix)
  {
    function Block(x: Input): Matrix
    {
      match x
      case Velocity => dPowerdVelocity
      case PowerCoefficient => dPowerdCp
      case Diameter => dPowerdDiameter
    }

    function DirRow(x: Input): Matrix
    {
      match x
      case Velocity => dDirdVelocity
      case PowerCoefficient => dDirdCp
      case Diameter => dDirdDiameter
    }
  }

  /** Which of one turbine's gradient entries a mask sets to zero. */
  datatype Zeroing = Zeroing(velocity: bool, cp: bool, diameter: bool)
  {
    predicate Of(x: Input)
    {
      match x
      case Velocity => velocity
      case PowerCoefficient => cp
      case Diameter => diameter
    }
  }

  /** Every turbine's gradient entry for input `x` under the mask `zeroed`. */
  function Slopes(turbines: seq<Turbine>, airDensity: real, mode: Mode, x: Input, zeroed: seq<Zeroing>): (s: Vector)
    requires |zeroed| == |turbines|
    ensures |s| == |turbines|
  {
    seq(|turbines|, i requires 0 <= i < |turbines| => Slope(turbines[i], airDensity, mode, x, zeroed[i].Of(x)))
  }

  /** The Jacobian for a mask: diagonal blocks of the slopes (zero blocks for
      `Cp` and the diameter on the power curve), and the direction rows as
      the row sums (power curve) or column sums (coefficient) of the
      velocity block. */
  function JacobianFor(turbines: seq<Turbine>, airDensity: real, mode: Mode, zeroed: seq<Zeroing>): Jacobian
    requires |zeroed| == |turbines|
  {
    var n := |turbines|;
    var dv := Diagonal(Slopes(turbines, airDensity, mode, Velocity, zeroed));
    match mode
    case PowerCurve =>
      Jacobian(dv, ZeroMatrix(n, n), ZeroMatrix(n, n), [RowSums(dv)], ZeroMatrix(1, n), ZeroMatrix(1, n))
    case Coefficient(_) =>
      var dcp := Diagonal(Slopes(turbines, airDensity, mode, PowerCoefficient, zeroed));
      var dd := Diagonal(Slopes(turbines, airDensity, mode, Diameter, zeroed));
      Jacobian(dv, dcp, dd, [ColumnSums(dv, n)], [ColumnSums(dcp, n)], [ColumnSums(dd, n)])
  }

  /** Each turbine's power depends only on its own inputs, and the total's
      gradient is the sum of the turbines': every power block is diagonal,
      and every direction row holds that diagonal. */
  ghost predicate IsDirectionJacobian(turbines: seq<Turbine>, airDensity: real, mode: Mode, zeroed: seq<Zeroing>, J: Jacobian)
    requires |zeroed| == |turbines|
  {
    forall x: Input ::
      && IsMatrix(J.Block(x), |turbines|, |turbines|)
      && IsMatrix(J.DirRow(x), 1, |turbines|)
      && J.Block(x) == Diagonal(Slopes(turbines, airDensity, mode, x, zeroed))
      && J.DirRow(x) == [Slopes(turbines, airDensity, mode, x, zeroed)]
  }

  /** The mask `linearize` computes in coefficient mode: all three entries
      of a turbine whose power from the forward pass is at or above its rated
      power, or whose wind is below cut-in. Unused on the power curve. */
  function MaskAsWritten(turbines: seq<Turbine>, airDensity: real, mode: Mode): (zeroed: seq<Zeroing>)
    ensures |zeroed| == |turbines|
    ensures forall i, x: Input :: 0 <= i < |turbines| ==>
      (zeroed[i].Of(x) <==> Solve(turbines, airDensity, mode).wtPower[i] >= turbines[i].ratedPower
                            || turbines[i].velocity < turbines[i].cutInSpeed)
  {
    var wtPower := Solve(turbines, airDensity, mode).wtPower;
    seq(|turbines|, i requires 0 <= i < |turbines| =>
      var b := wtPower[i] >= turbines[i].ratedPower || turbines[i].velocity < turbines[i].cutInSpeed;
      Zeroing(b, b, b))
  }

  /** The mask that matches the power rule: every entry of a turbine whose
      power is flat, and the `Cp` entry of a turbine whose `Cp` comes from a
      curve. */
  function Mask(turbines: seq<Turbine>, airDensity: real, mode: Mode): (zeroed: seq<Zeroing>)
    ensures |zeroed| == |turbines|
    ensures forall i, x: Input :: 0 <= i < |turbines| ==> (zeroed[i].Of(x) <==> ZeroedFor(turbines[i], airDensity, mode, x))
  {
    seq(|turbines|, i requires 0 <= i < |turbines| =>
      var t := turbines[i];
      Zeroing(ZeroedFor(t, airDensity, mode, Velocity), ZeroedFor(t, airDensity, mode, PowerCoefficient),
              ZeroedFor(t, airDensity, mode, Diameter)))
  }

  lemma JacobianForShape(turbines: seq<Turbine>, airDensity: real, mode: Mode, zeroed: seq<Zeroing>)
    requires |zeroed| == |turbines|
    ensures IsDirectionJacobian(turbines, airDensity, mode, zeroed, JacobianFor(turbines, airDensity, mode, zeroed))
  {
    var n := |turbines|;
    var J := JacobianFor(turbines, airDensity, mode, zeroed);
    var sv := Slopes(turbines, airDensity, mode, Velocity, zeroed);
    var scp := Slopes(turbines, airDensity, mode, PowerCoefficient, zeroed);
    var sd := Slopes(turbines, airDensity, mode, Diameter, zeroed);
    match mode
    case PowerCurve =>
      RowSumsOfDiagonal(sv);
      assert scp == Zeros(n) && sd == Zeros(n);
      ZeroDiagonal(n);
      assert ZeroMatrix(1, n) == [Zeros(n)];
    case Coefficient(_) =>
      ColumnSumsOfDiagonal(sv);
      ColumnSumsOfDiagonal(scp);
      ColumnSumsOfDiagonal(sd);
  }

  /** `np.zeros([n, n])` is the diagonal matrix of zeros. */
  lemma ZeroDiagonal(n: nat)
    ensures Diagonal(Zeros(n)) == ZeroMatrix(n, n)
  {
    var d, z := Diagonal(Zeros(n)), ZeroMatrix(n, n);
    forall r | 0 <= r < n
      ensures d[r] == z[r]
    {
    }
  }

  /** `linearize`, with the mask as written. */
  function Linearize(turbines: seq<Turbine>, airDensity: real, mode: Mode): (J: Jacobian)
    ensures IsDirectionJacobian(turbines, airDensity, mode, MaskAsWritten(turbines, airDensity, mode), J)
  {
    var zeroed := MaskAsWritten(turbines, airDensity, mode);
    JacobianForShape(turbines, airDensity, mode, zeroed);
    JacobianFor(turbines, airDensity, mode, zeroed)
  }

  /** `linearize` with the mask that matches the power rule. */
  function LinearizeCorrected(turbines: seq<Turbine>, airDensity: real, mode: Mode): (J: Jacobian)
    ensures IsDirectionJacobian(turbines, airDensity, mode, Mask(turbines, airDensity, mode), J)
  {
    var zeroed := Mask(turbines, airDensity, mode);
    JacobianForShape(turbines, airDensity, mode, zeroed);
    JacobianFor(turbines, airDensity, mode, zeroed)
  }

  /** The corrected Jacobian is the derivative of `Solve`: a step `h` of input
      `x` of turbine `k` that keeps it on the same branch moves every
      turbine's power by column `k` of the block times the step (only turbine
      `k`'s moves), and the total by the direction row's entry `k`, up to the
      turbine's second-order term. */
  lemma LinearizeCorrectedIsDerivative(turbines: seq<Turbine>, airDensity: real, mode: Mode, k: nat, x: Input, h: real, e: real)
    requires k < |turbines|
    requires BranchOf(Step(turbines[k], x, h, e), airDensity, mode) == BranchOf(turbines[k], airDensity, mode)
    ensures var J := LinearizeCorrected(turbines, airDensity, mode);
      var o, o' := Solve(turbines, airDensity, mode), Solve(turbines[k := Step(turbines[k], x, h, e)], airDensity, mode);
      var q := Remainder(turbines[k], airDensity, mode, x, h, e);
      && (forall i :: 0 <= i < |turbines| ==>
            TaylorStep(o.wtPower[i], o'.wtPower[i], J.Block(x)[i][k], h, if i == k then q else 0.0))
      && TaylorStep(o.dirPower, o'.dirPower, J.DirRow(x)[0][k], h, q)
  {
    DirectionStep(turbines, airDensity, mode, Mask(turbines, airDensity, mode), LinearizeCorrected(turbines, airDensity, mode),
                  k, x, h, e);
  }

  /** `LinearizeCorrectedIsDerivative` for any Jacobian of the corrected shape. */
  lemma DirectionStep(turbines: seq<Turbine>, airDensity: real, mode: Mode, zeroed: seq<Zeroing>, J: Jacobian,
                      k: nat, x: Input, h: real, e: real)
    requires |zeroed| == |turbines| && k < |turbines|
    requires IsDirectionJacobian(turbines, airDensity, mode, zeroed, J)
    requires Slopes(turbines, airDensity, mode, x, zeroed)[k]
          == Slope(turbines[k], airDensity, mode, x, ZeroedFor(turbines[k], airDensity, mode, x))
    requires BranchOf(Step(turbines[k], x, h, e), airDensity, mode) == BranchOf(turbines[k], airDensity, mode)
    ensures var o, o' := Solve(turbines, airDensity, mode), Solve(turbines[k := Step(turbines[k], x, h, e)], airDensity, mode);
      var q := Remainder(turbines[k], airDensity, mode, x, h, e);
      && (forall i :: 0 <= i < |turbines| ==>
            TaylorStep(o.wtPower[i], o'.wtPower[i], J.Block(x)[i][k], h, if i == k then q else 0.0))
      && TaylorStep(o.dirPower, o'.dirPower, J.DirRow(x)[0][k], h, q)
  {
    var t := turbines[k];
    var o, o' := Solve(turbines, airDensity, mode), Solve(turbines[k := Step(t, x, h, e)], airDensity, mode);
    var q := Remainder(t, airDensity, mode, x, h, e);
    var slopes := Slopes(turbines, airDensity, mode, x, zeroed);
    var slope := Slope(t, airDensity, mode, x, ZeroedFor(t, airDensity, mode, x));
    SolveReplace(turbines, airDensity, mode, k, Step(t, x, h, e));
    TurbineStep(t, airDensity, mode, x, h, e);
    assert J.Block(x) == Diagonal(slopes) && J.DirRow(x) == [slopes];
    assert slopes[k] == slope;
    forall i | 0 <= i < |turbines|
      ensures TaylorStep(o.wtPower[i], o'.wtPower[i], J.Block(x)[i][k], h, if i == k then q else 0.0)
    {
      if i != k {
        FlatStep(o.wtPower[i], h);
      }
    }
    TotalStep(o.dirPower, o'.dirPower, o.wtPower[k], o'.wtPower[k], slope, h, q);
  }

  /** A total that moves with one of its terms takes that term's step. */
  lemma TotalStep(total: real, total': real, p: real, p': real, slope: real, h: real, q: real)
    requires total' == total + (p' - p) && TaylorStep(p, p', slope, h, q)
    ensures TaylorStep(total, total', slope, h, q)
  {
  }

  /** Without rotor components the mask as written zeroes exactly the
      entries the power rule makes zero, except the `Cp` entry of a turbine
      whose `Cp` comes from a curve. */
  lemma MaskAgrees(turbines: seq<Turbine>, airDensity: real)
    ensures forall i, x: Input :: 0 <= i < |turbines| && !(x == PowerCoefficient && turbines[i].cpFromCurve) ==>
      (MaskAsWritten(turbines, airDensity, Coefficient(false))[i].Of(x) <==> Mask(turbines, airDensity, Coefficient(false))[i].Of(x))
  {
    var mode := Coefficient(false);
    forall i | 0 <= i < |turbines|
      ensures (Solve(turbines, airDensity, mode).wtPower[i] >= turbines[i].ratedPower
               || turbines[i].velocity < turbines[i].cutInSpeed) <==> Flat(turbines[i], airDensity, mode)
    {
      var t := turbines[i];
      CoefficientPowerRange(Raw(t, airDensity), t.ratedPower, t.velocity, t.cutInSpeed, false);
    }
  }

  /** On the power curve, and without rotor components when no `Cp` comes
      from a curve, `linearize` as written is the corrected Jacobian. */
  lemma LinearizeAgrees(turbines: seq<Turbine>, airDensity: real, mode: Mode)
    requires mode == PowerCurve
          || (mode == Coefficient(false) && forall i :: 0 <= i < |turbines| ==> !turbines[i].cpFromCurve)
    ensures Linearize(turbines, airDensity, mode) == LinearizeCorrected(turbines, airDensity, mode)
  {
    var asWritten, corrected := MaskAsWritten(turbines, airDensity, mode), Mask(turbines, airDensity, mode);
    if mode == Coefficient(false) {
      MaskAgrees(turbines, airDensity);
    }
    forall x: Input
      ensures Slopes(turbines, airDensity, mode, x, asWritten) == Slopes(turbines, airDensity, mode, x, corrected)
    {
    }
  }

  /** On the power curve and without rotor components, `linearize` is the
      derivative of `solve_nonlinear` as `LinearizeCorrectedIsDerivative`
      states it, for every input but the `Cp` of a turbine whose `Cp` comes
      from a curve. */
  lemma LinearizeIsDerivative(turbines: seq<Turbine>, airDensity: real, mode: Mode, k: nat, x: Input, h: real, e: real)
    requires mode != Coefficient(true) && k < |turbines|
    requires mode == PowerCurve || !(x == PowerCoefficient && turbines[k].cpFromCurve)
    requires BranchOf(Step(turbines[k], x, h, e), airDensity, mode) == BranchOf(turbines[k], airDensity, mode)
    ensures var J := Linearize(turbines, airDensity, mode);
      var o, o' := Solve(turbines, airDensity, mode), Solve(turbines[k := Step(turbines[k], x, h, e)], airDensity, mode);
      var q := Remainder(turbines[k], airDensity, mode, x, h, e);
      && (forall i :: 0 <= i < |turbines| ==>
            TaylorStep(o.wtPower[i], o'.wtPower[i], J.Block(x)[i][k], h, if i == k then q else 0.0))
      && TaylorStep(o.dirPower, o'.dirPower, J.DirRow(x)[0][k], h, q)
  {
    var asWritten := MaskAsWritten(turbines, airDensity, mode);
    if mode == Coefficient(false) {
      MaskAgrees(turbines, airDensity);
      assert asWritten[k].Of(x) == Mask(turbines, airDensity, mode)[k].Of(x);
    }
    DirectionStep(turbines, airDensity, mode, asWritten, Linearize(turbines, airDensity, mode), k, x, h, e);
  }

  // ---------------------------------------------------------------------
  // The `Cp` entry of a turbine whose `Cp` comes from a curve

  /** When the forward pass reads a producing turbine's `Cp` from a curve, its
      power does not depend on the `Cp` input, yet `linearize` as written
      keeps the raw power's slope in `Cp` for it, where the corrected
      Jacobian has zero. */
  lemma CurveCpGradientKept(turbines: seq<Turbine>, airDensity: real, k: nat, h: real, e: real)
    requires k < |turbines| && turbines[k].cpFromCurve
    requires turbines[k].velocity >= turbines[k].cutInSpeed && Raw(turbines[k], airDensity) < turbines[k].ratedPower
    ensures Solve(turbines[k := Step(turbines[k], PowerCoefficient, h, e)], airDensity, Coefficient(false))
         == Solve(turbines, airDensity, Coefficient(false))
    ensures Linearize(turbines, airDensity, Coefficient(false)).dPowerdCp[k][k] == RawSlope(turbines[k], airDensity, PowerCoefficient)
    ensures LinearizeCorrected(turbines, airDensity, Coefficient(false)).dPowerdCp[k][k] == 0.0
  {
    var t := turbines[k];
    assert turbines[k := Step(t, PowerCoefficient, h, e)] == turbines;
    CoefficientPowerRange(Raw(t, airDensity), t.ratedPower, t.velocity, t.cutInSpeed, false);
    assert !MaskAsWritten(turbines, airDensity, Coefficient(false))[k].Of(PowerCoefficient);
  }

  /** The default turbine at 8 m/s with `Cp` from a curve: a step of the `Cp`
      input leaves its power unchanged, yet `linearize` reports more than
      1000 kW per unit of `Cp`. */
  lemma CurveCpExample()
    ensures var t := DefaultTurbine(8.0).(cpFromCurve := true);
      && TurbinePower(Step(t, PowerCoefficient, 0.1, 0.0), DefaultAirDensity, Coefficient(false))
         == TurbinePower(t, DefaultAirDensity, Coefficient(false))
      && Linearize([t], DefaultAirDensity, Coefficient(false)).dPowerdCp[0][0] > 1000.0
      && LinearizeCorrected([t], DefaultAirDensity, Coefficient(false)).dPowerdCp[0][0] == 0.0
  {
    var t := DefaultTurbine(8.0).(cpFromCurve := true);
    assert RawSlope(t, DefaultAirDensity, PowerCoefficient) > 1000.0;
    assert Raw(t, DefaultAirDensity) < 5000.0;
    CurveCpGradientKept([t], DefaultAirDensity, 0, 0.1, 0.0);
  }

  // ---------------------------------------------------------------------
  // The mask with rotor components

  /** With rotor components the power is never clamped, yet the mask as
      written zeroes every gradient entry of a turbine whose raw power reaches
      rated power, where the corrected Jacobian keeps the raw slope (zero in
      a `Cp` that comes from a curve). */
  lemma RotorComponentsGradientDropped(turbines: seq<Turbine>, airDensity: real, k: nat, x: Input)
    requires k < |turbines|
    requires turbines[k].velocity >= turbines[k].cutInSpeed && Raw(turbines[k], airDensity) >= turbines[k].ratedPower
    ensures Linearize(turbines, airDensity, Coefficient(true)).Block(x)[k][k] == 0.0
    ensures LinearizeCorrected(turbines, airDensity, Coefficient(true)).Block(x)[k][k]
         == if x == PowerCoefficient && turbines[k].cpFromCurve then 0.0 else RawSlope(turbines[k], airDensity, x)
  {
    var t := turbines[k];
    CoefficientPowerRange(Raw(t, airDensity), t.ratedPower, t.velocity, t.cutInSpeed, true);
    assert MaskAsWritten(turbines, airDensity, Coefficient(true))[k].Of(x);
    assert Mask(turbines, airDensity, Coefficient(true))[k].Of(x) <==> x == PowerCoefficient && turbines[k].cpFromCurve;
  }

  /** A turbine with the component's default inputs, facing wind speed `v`. */
  function DefaultTurbine(v: real): Turbine
  {
    Turbine(
      velocity := v,
      rotorDiameter := 126.4,
      cp := (0.7737 / 0.944) * 4.0 * (1.0 / 3.0) * Square(1.0 - 1.0 / 3.0),
      cpFromCurve := false,
      cpSlope := 0.0,
      generatorEfficiency := 0.944,
      ratedPower := 5000.0,
      cutInSpeed := 3.0,
      ratedWindSpeed := 11.4,
      cutOutSpeed := 25.0)
  }

  const DefaultAirDensity: real := 1.1716

  /** At the defaults and 12 m/s, with rotor components, the raw power (about
      5824 kW) exceeds the rated 5000 kW, so the mask as written zeroes the
      turbine's gradient entries; yet one more metre per second raises the
      power, so the zero slope is not the derivative. */
  lemma RotorComponentsExample()
    ensures Linearize([DefaultTurbine(12.0)], DefaultAirDensity, Coefficient(true)).dPowerdVelocity[0][0] == 0.0
    ensures TurbinePower(DefaultTurbine(13.0), DefaultAirDensity, Coefficient(true))
          > TurbinePower(DefaultTurbine(12.0), DefaultAirDensity, Coefficient(true)) + 1000.0
    ensures LinearizeCorrected([DefaultTurbine(12.0)], DefaultAirDensity, Coefficient(true)).dPowerdVelocity[0][0] > 1000.0
  {
    var t := DefaultTurbine(12.0);
    assert Raw(t, DefaultAirDensity) > 5800.0;
    RotorComponentsGradientDropped([t], DefaultAirDensity, 0, Velocity);
  }
}
