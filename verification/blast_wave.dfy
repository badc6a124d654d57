/**
 Initial data for the GRMHD cylindrical or spherical blast wave.

 Inside an inner radius the fluid has one density and pressure, outside an
 outer radius another, and in between the value moves from one to the other
 linearly in the logarithm. The region a point falls in is picked by three
 step-function masks. The square root, exponential and logarithm of the
 floating-point code are passed in as functions (`Numerics`); the masks,
 the regions and the constant fields are modelled exactly over `real`.
 */
module BlastWave {
  import opened Wrappers

  datatype Geometry = Cylindrical | Spherical

  /** The option text of a geometry; it parses back to that geometry. */
  function GeometryName(g: Geometry): (name: string)
    ensures ParseGeometry(name) == Success(g)
  {
    match g
    case Cylindrical => "Cylindrical"
    case Spherical => "Spherical"
  }

  datatype ParseError = UnknownGeometry(text: string) | RadiiOutOfOrder(innerRadius: real, outerRadius: real)

  /** Reading a `Geometry` option: only the two names are accepted. */
  function ParseGeometry(text: string): (r: Result<Geometry, ParseError>)
    ensures r == Success(Cylindrical) <==> text == "Cylindrical"
    ensures r == Success(Spherical) <==> text == "Spherical"
    ensures r.Failure? ==> r.error == UnknownGeometry(text)
  {
    if text == "Cylindrical" then Success(Cylindrical)
    else if text == "Spherical" then Success(Spherical)
    else Failure(UnknownGeometry(text))
  }

  datatype Vector3 = Vector3(x: real, y: real, z: real)

  /** The ideal-fluid equation of state the initial data carries. */
  datatype IdealFluid = IdealFluid(adiabaticIndex: real)

  /** Stand-in for the background spacetime object, whose type is not part of this model. */
  datatype Spacetime = Spacetime(parameters: seq<real>)

  /** The background spacetime member is default-constructed, never passed in. */
  const DefaultSpacetime: Spacetime := Spacetime([])

  datatype BlastWave = BlastWave(
    innerRadius: real,
    outerRadius: real,
    innerDensity: real,
    outerDensity: real,
    innerPressure: real,
    outerPressure: real,
    magneticField: Vector3,
    adiabaticIndex: real,
    geometry: Geometry,
    equationOfState: IdealFluid,
    backgroundSpacetime: Spacetime)

  /** What the constructor establishes. */
  predicate Valid(b: BlastWave)
  {
    b.innerRadius < b.outerRadius && b.equationOfState == IdealFluid(b.adiabaticIndex)
  }

  /**
   The constructor: it stores the parameters, builds the equation of state
   from the adiabatic index, and rejects an inner radius that is not below
   the outer one.
   */
  function Create(innerRadius: real, outerRadius: real, innerDensity: real, outerDensity: real,
                  innerPressure: real, outerPressure: real, magneticField: Vector3,
                  adiabaticIndex: real, geometry: Geometry)
    : (r: Result<BlastWave, ParseError>)
    ensures r.Success? <==> innerRadius < outerRadius
    ensures r.Failure? ==> r.error == RadiiOutOfOrder(innerRadius, outerRadius)
    ensures r.Success? ==> Valid(r.value)
    ensures r.Success? ==>
      && r.value.innerRadius == innerRadius && r.value.outerRadius == outerRadius
      && r.value.innerDensity == innerDensity && r.value.outerDensity == outerDensity
      && r.value.innerPressure == innerPressure && r.value.outerPressure == outerPressure
      && r.value.magneticField == magneticField && r.value.adiabaticIndex == adiabaticIndex
      && r.value.geometry == geometry && r.value.backgroundSpacetime == DefaultSpacetime
  {
    if innerRadius >= outerRadius then Failure(RadiiOutOfOrder(innerRadius, outerRadius))
    else Success(BlastWave(innerRadius, outerRadius, innerDensity, outerDensity, innerPressure,
                           outerPressure, magneticField, adiabaticIndex, geometry,
                           IdealFluid(adiabaticIndex), DefaultSpacetime))
  }

  // ---------------------------------------------------------------------
  // Equality
  // ---------------------------------------------------------------------

  /** `operator==`: the nine parameters agree; the equation of state and spacetime are not compared. */
  predicate Equal(a: BlastWave, b: BlastWave)
    ensures Equal(a, b) <==>
      a.(equationOfState := b.equationOfState, backgroundSpacetime := b.backgroundSpacetime) == b
  {
    && a.innerRadius == b.innerRadius
    && a.outerRadius == b.outerRadius
    && a.innerDensity == b.innerDensity
    && a.outerDensity == b.outerDensity
    && a.innerPressure == b.innerPressure
    && a.outerPressure == b.outerPressure
    && a.magneticField == b.magneticField
    && a.adiabaticIndex == b.adiabaticIndex
    && a.geometry == b.geometry
  }

  /** `operator!=`: some parameter differs. */
  predicate NotEqual(a: BlastWave, b: BlastWave)
    ensures NotEqual(a, b) <==>
      a.(equationOfState := b.equationOfState, backgroundSpacetime := b.backgroundSpacetime) != b
  {
    !Equal(a, b)
  }

  /**
   Equality is an equivalence that identifies exactly the blast waves built
   from the same parameters: it sees through the equation of state and the
   background spacetime, and for valid values it is structural equality up
   to the background spacetime.
   */
  lemma EqualityIgnoresSolverObjects(a: BlastWave, eos: IdealFluid, spacetime: Spacetime)
    ensures Equal(a, a)
    ensures Equal(a, a.(equationOfState := eos, backgroundSpacetime := spacetime))
    ensures NotEqual(a, a.(innerRadius := a.innerRadius + 1.0))
  {
  }

  lemma EqualMatchesStructuralEquality(a: BlastWave, b: BlastWave)
    requires Valid(a) && Valid(b)
    ensures Equal(a, b) <==> a == b.(backgroundSpacetime := a.backgroundSpacetime)
    ensures Equal(a, b) == Equal(b, a)
    ensures NotEqual(a, b) <==> !Equal(a, b)
  {
  }

  // ---------------------------------------------------------------------
  // compute_piecewise
  // ---------------------------------------------------------------------

  /** The floating-point functions the data is computed with. */
  datatype Numerics = Numerics(sqrt: real -> real, exp: real -> real, log: real -> real)

  /** The quantity whose square root is the radius: the z coordinate counts only for spheres. */
  function RadiusSquared(g: Geometry, p: Vector3): real
  {
    match g
    case Cylindrical => p.x * p.x + p.y * p.y
    case Spherical => p.x * p.x + p.y * p.y + p.z * p.z
  }

  function Radius(g: Geometry, p: Vector3, num: Numerics): real
  {
    num.sqrt(RadiusSquared(g, p))
  }

  /** The cylindrical radius ignores z; the spherical one adds z^2 to it. */
  lemma RadiusCoordinates(p: Vector3, z: real, num: Numerics)
    ensures Radius(Cylindrical, p.(z := z), num) == Radius(Cylindrical, p, num)
    ensures RadiusSquared(Spherical, p) == RadiusSquared(Cylindrical, p) + p.z * p.z
    ensures RadiusSquared(Spherical, p) >= RadiusSquared(Cylindrical, p) >= 0.0
  {
    assert RadiusSquared(Cylindrical, p.(z := z)) == RadiusSquared(Cylindrical, p);
  }

  /** Blaze's `step_function`: one at and above zero, zero below. */
  function StepFunction(x: real): real
  {
    if x >= 0.0 then 1.0 else 0.0
  }

  function InnerMask(radius: real, innerRadius: real): real
  {
    StepFunction(innerRadius - radius)
  }

  function OuterMask(radius: real, outerRadius: real): real
  {
    StepFunction(radius - outerRadius)
  }

  function TransitionMask(radius: real, innerRadius: real, outerRadius: real): real
  {
    (1.0 - StepFunction(innerRadius - radius)) * (1.0 - StepFunction(radius - outerRadius))
  }

  /**
   With the radii in order, exactly one mask is one at every radius: the
   inner mask up to and including the inner radius, the outer mask from the
   outer radius on, the transition mask strictly in between.
   */
  lemma MasksPartition(radius: real, innerRadius: real, outerRadius: real)
    requires innerRadius < outerRadius
    ensures InnerMask(radius, innerRadius) + OuterMask(radius, outerRadius)
            + TransitionMask(radius, innerRadius, outerRadius) == 1.0
    ensures InnerMask(radius, innerRadius) == 1.0 <==> radius <= innerRadius
    ensures OuterMask(radius, outerRadius) == 1.0 <==> radius >= outerRadius
    ensures TransitionMask(radius, innerRadius, outerRadius) == 1.0 <==> innerRadius < radius < outerRadius
  {
  }

  /** Without the constructor's check the masks would overlap where the radii meet. */
  lemma MasksOverlapForEqualRadii(radius: real)
    ensures InnerMask(radius, radius) + OuterMask(radius, radius) + TransitionMask(radius, radius, radius) == 2.0
  {
  }

  /**
   The exponent of the transition: moves linearly in the radius from the
   logarithm of the inner value at the inner radius to the logarithm of the
   outer value at the outer radius.
   */
  function TransitionExponent(radius: real, innerRadius: real, outerRadius: real,
                              logInner: real, logOuter: real): real
    requires innerRadius != outerRadius
  {
    ((-1.0 * radius + innerRadius) * logOuter + (radius - outerRadius) * logInner)
      / (innerRadius - outerRadius)
  }

  lemma TransitionExponentEnds(innerRadius: real, outerRadius: real, logInner: real, logOuter: real)
    requires innerRadius != outerRadius
    ensures TransitionExponent(innerRadius, innerRadius, outerRadius, logInner, logOuter) == logInner
    ensures TransitionExponent(outerRadius, innerRadius, outerRadius, logInner, logOuter) == logOuter
  {
    var d := innerRadius - outerRadius;
    assert (innerRadius - outerRadius) * logInner / d == logInner;
    assert (-1.0 * outerRadius + innerRadius) * logOuter / d == logOuter;
  }

  function Transition(radius: real, innerRadius: real, outerRadius: real,
                      innerValue: real, outerValue: real, num: Numerics): real
    requires innerRadius != outerRadius
  {
    num.exp(TransitionExponent(radius, innerRadius, outerRadius, num.log(innerValue), num.log(outerValue)))
  }

  /**
   `compute_piecewise`: the sum of the three masked values. It equals the
   inner value up to the inner radius, the outer value from the outer
   radius on, and the log-linear transition strictly in between.
   */
  function ComputePiecewise(p: Vector3, innerRadius: real, outerRadius: real,
                            innerValue: real, outerValue: real, g: Geometry, num: Numerics): (v: real)
    requires innerRadius < outerRadius
    ensures var radius := Radius(g, p, num);
      && (radius <= innerRadius ==> v == innerValue)
      && (radius >= outerRadius ==> v == outerValue)
      && (innerRadius < radius < outerRadius ==>
            v == Transition(radius, innerRadius, outerRadius, innerValue, outerValue, num))
  {
    var radius := Radius(g, p, num);
    MasksPartition(radius, innerRadius, outerRadius);
    0.0
      + InnerMask(radius, innerRadius) * innerValue
      + OuterMask(radius, outerRadius) * outerValue
      + TransitionMask(radius, innerRadius, outerRadius)
        * Transition(radius, innerRadius, outerRadius, innerValue, outerValue, num)
  }

  /**
   Where `exp` undoes `log` on the two values, the transition meets them at
   the radii, so the piecewise value is continuous there.
   */
  lemma TransitionMeetsEnds(innerRadius: real, outerRadius: real, innerValue: real, outerValue: real,
                            num: Numerics)
    requires innerRadius < outerRadius
    requires num.exp(num.log(innerValue)) == innerValue && num.exp(num.log(outerValue)) == outerValue
    ensures Transition(innerRadius, innerRadius, outerRadius, innerValue, outerValue, num) == innerValue
    ensures Transition(outerRadius, innerRadius, outerRadius, innerValue, outerValue, num) == outerValue
  {
    TransitionExponentEnds(innerRadius, outerRadius, num.log(innerValue), num.log(outerValue));
  }

  // ---------------------------------------------------------------------
  // variables
  // ---------------------------------------------------------------------

  /** The primitive variables at one point (internal energy and enthalpy are left out). */
  datatype Primitives = Primitives(
    restMassDensity: real,
    electronFraction: real,
    pressure: real,
    spatialVelocity: Vector3,
    magneticField: Vector3,
    divergenceCleaningField: real,
    lorentzFactor: real)

  const InnerElectronFraction: real := 0.1
  const OuterElectronFraction: real := 0.4

  /** `variables`: density, electron fraction and pressure are piecewise; the rest is uniform. */
  function Variables(b: BlastWave, p: Vector3, num: Numerics): (v: Primitives)
    requires Valid(b)
    ensures var radius := Radius(b.geometry, p, num);
      && (radius <= b.innerRadius ==>
            v.restMassDensity == b.innerDensity && v.pressure == b.innerPressure
            && v.electronFraction == InnerElectronFraction)
      && (radius >= b.outerRadius ==>
            v.restMassDensity == b.outerDensity && v.pressure == b.outerPressure
            && v.electronFraction == OuterElectronFraction)
  {
    Primitives(
      ComputePiecewise(p, b.innerRadius, b.outerRadius, b.innerDensity, b.outerDensity, b.geometry, num),
      ComputePiecewise(p, b.innerRadius, b.outerRadius, InnerElectronFraction, OuterElectronFraction,
                       b.geometry, num),
      ComputePiecewise(p, b.innerRadius, b.outerRadius, b.innerPressure, b.outerPressure, b.geometry, num),
      Vector3(0.0, 0.0, 0.0),
      b.magneticField,
      0.0,
      1.0)
  }

  /**
   The fluid starts at rest and the magnetic field is the configured
   constant: velocity, Lorentz factor, divergence-cleaning field and
   magnetic field are the same at every point.
   */
  lemma UniformFields(b: BlastWave, p: Vector3, q: Vector3, num: Numerics)
    requires Valid(b)
    ensures Variables(b, p, num).spatialVelocity == Variables(b, q, num).spatialVelocity == Vector3(0.0, 0.0, 0.0)
    ensures Variables(b, p, num).lorentzFactor == Variables(b, q, num).lorentzFactor == 1.0
    ensures Variables(b, p, num).divergenceCleaningField == Variables(b, q, num).divergenceCleaningField == 0.0
    ensures Variables(b, p, num).magneticField == Variables(b, q, num).magneticField == b.magneticField
  {
  }
}
