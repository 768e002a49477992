/** Continuous drag compensation: an RK4 orbit under gravity, drag and a thrust cancelling a fraction of
    the drag. */
module StationKeeping {
  import opened Prelude
  import opened Vectors
  import opened Matrices
  import EncounterPlane
  import OrbitalLifetime

  const MU := OrbitalLifetime.MU
  const EARTH_RADIUS_KM := OrbitalLifetime.EARTH_RADIUS_KM
  const OMEGA := 0.000072921159

  type Maths = OrbitalLifetime.Maths
  datatype State = State(p: V3, v: V3)

  // ---------- Forces ----------

  function Gravity(m: Maths, p: V3): V3 {
    var r := m.sqrt(Norm2(p));
    if r < 0.001 then ZERO
    else
      CubePositive(r);
      var r3 := r * r * r;
      V3(-MU * p.x / r3, -MU * p.y / r3, -MU * p.z / r3)
  }

  /** Within a millimetre of the centre there is no pull. */
  lemma NoGravityAtCentre(m: Maths, p: V3)
    requires 1000.0 * m.sqrt(Norm2(p)) < 1.0
    ensures Gravity(m, p) == ZERO
  {}

  /** Velocity relative to the atmosphere turning with the Earth. */
  function Airspeed(s: State): V3 {
    V3(s.v.x - (-OMEGA * s.p.y), s.v.y - OMEGA * s.p.x, s.v.z)
  }

  function Altitude(m: Maths, p: V3): real { m.sqrt(Norm2(p)) / 1000.0 - EARTH_RADIUS_KM }

  /** Distances in metres, altitudes in kilometres. */
  lemma AltitudeMeans(m: Maths, p: V3)
    ensures 1000.0 * (Altitude(m, p) + EARTH_RADIUS_KM) == m.sqrt(Norm2(p))
  {}

  /** In the figures: 398600.4418 km3/s2, 6378137 m, and one turn in a sidereal day. */
  lemma EarthFigures()
    ensures MU == 398600.4418 * 1000.0 * 1000.0 * 1000.0 && 1000.0 * EARTH_RADIUS_KM == 6378137.0
    ensures 6.283185 < OMEGA * 86164.1 < 6.283189
  {}

  function Drag(m: Maths, s: State, bc: real): V3
    requires bc != 0.0
  {
    var altitude := Altitude(m, s.p);
    if altitude <= 0.0 || altitude > 1000.0 then ZERO
    else Push(m.sqrt, OrbitalLifetime.Density(m.exp, altitude), Airspeed(s), bc)
  }

  /** Drag in air of density rho at a given airspeed. */
  function Push(sqrt: real -> real, rho: real, air: V3, bc: real): V3
    requires bc != 0.0
  {
    var speed := sqrt(Norm2(air));
    if rho <= 0.0 || speed < 0.000001 then ZERO
    else Scale(-Resistance(rho, speed, bc), air)
  }

  function Resistance(rho: real, speed: real, bc: real): real
    requires bc != 0.0
  {
    0.5 * rho * speed / bc
  }

  function Thrust(drag: V3, compensation: real): V3 {
    Scale(-compensation, drag)
  }

  function NetDrag(m: Maths, s: State, bc: real, compensation: real): V3
    requires bc != 0.0
  {
    Add(Drag(m, s, bc), Thrust(Drag(m, s, bc), compensation))
  }

  // ---------- One step ----------

  /** One RK4 step; `extra` is held over the four stages. */
  function Rk4(m: Maths, s: State, extra: V3, h: real): State {
    var a1 := Add(Gravity(m, s.p), extra);
    var s2 := State(Axpy(s.p, 0.5 * h, s.v), Axpy(s.v, 0.5 * h, a1));
    var a2 := Add(Gravity(m, s2.p), extra);
    var s3 := State(Axpy(s.p, 0.5 * h, s2.v), Axpy(s.v, 0.5 * h, a2));
    var a3 := Add(Gravity(m, s3.p), extra);
    var s4 := State(Axpy(s.p, h, s3.v), Axpy(s.v, h, a3));
    var a4 := Add(Gravity(m, s4.p), extra);
    State(Axpy(s.p, h / 6.0, Slopes(s.v, s2.v, s3.v, s4.v)), Axpy(s.v, h / 6.0, Slopes(a1, a2, a3, a4)))
  }

  /** One step from its four accelerations alone. */
  lemma StepFromAccelerations(m: Maths, s: State, extra: V3, h: real)
    ensures var q2 := Add(s.p, Scale(h / 2.0, s.v));
      var a1, a2 := Add(Gravity(m, s.p), extra), Add(Gravity(m, q2), extra);
      var a3 := Add(Gravity(m, Add(q2, Scale(h * h / 4.0, a1))), extra);
      var a4 := Add(Gravity(m, Add(Add(s.p, Scale(h, s.v)), Scale(h * h / 2.0, a2))), extra);
      Rk4(m, s, extra, h) == State(
        Add(Add(s.p, Scale(h, s.v)), Scale(h * h / 6.0, Add(Add(a1, a2), a3))),
        Add(s.v, Scale(h / 6.0, Weighed(a1, a2, a3, a4))))
  {
    var a1 := Add(Gravity(m, s.p), extra);
    var a2 := Add(Gravity(m, Axpy(s.p, 0.5 * h, s.v)), extra);
    StagePositions(s.p, s.v, h, a1, a2);
    var a3 := Add(Gravity(m, Axpy(s.p, 0.5 * h, Axpy(s.v, 0.5 * h, a1))), extra);
    var a4 := Add(Gravity(m, Axpy(s.p, h, Axpy(s.v, 0.5 * h, a2))), extra);
    PositionFromAccelerations(s.p, s.v, h, a1, a2, a3);
    SlopesAreWeighed(a1, a2, a3, a4);
    AxpyAdds(s.v, h / 6.0, Weighed(a1, a2, a3, a4));
  }

  // ---------- The direction of the forces ----------

  /** Gravity pulls straight to the centre with MU / r^2. */
  lemma GravityIsCentral(m: Maths, p: V3)
    requires IsRoot(m.sqrt) && m.sqrt(Norm2(p)) >= 0.001
    ensures var g, r := Gravity(m, p), m.sqrt(Norm2(p));
      Cross(g, p) == ZERO && Dot(g, p) == -(MU / r) < 0.0 && Times(Norm2(g), Sq(Sq(r))) == Sq(MU)
  {
    var r := m.sqrt(Norm2(p));
    NormPositive(p);
    assert Sq(m.sqrt(Norm2(p))) == Norm2(p);
    CubePositive(r);
    GravityIsScaled(p, r, MU / (r * r * r), Gravity(m, p));
    ScaledPull(p, r, MU / (r * r * r), MU / r);
  }

  lemma CubePositive(r: real)
    requires r > 0.0
    ensures r * r * r > 0.0
  {
    ProductPositive(r, r, r * r);
    ProductPositive(r * r, r, r * r * r);
  }

  lemma GravityIsScaled(p: V3, r: real, k: real, g: V3)
    requires r * r * r != 0.0 && k == MU / (r * r * r)
    requires g == V3(-MU * p.x / (r * r * r), -MU * p.y / (r * r * r), -MU * p.z / (r * r * r))
    ensures g == Scale(-k, p)
  {
    OneQuotient(p.x, r * r * r, k);
    OneQuotient(p.y, r * r * r, k);
    OneQuotient(p.z, r * r * r, k);
  }

  lemma OneQuotient(x: real, r3: real, k: real)
    requires r3 != 0.0 && k == MU / r3
    ensures -MU * x / r3 == -k * x
  {
    assert k * r3 == MU;
    assert (-k * x) * r3 == -MU * x;
  }

  lemma ScaledPull(p: V3, r: real, k: real, q: real)
    requires r > 0.0 && Sq(r) == Norm2(p) && k == MU / (r * r * r) && q == MU / r && r * r * r > 0.0
    ensures Cross(Scale(-k, p), p) == ZERO
    ensures Dot(Scale(-k, p), p) == -q < 0.0
    ensures Times(Norm2(Scale(-k, p)), Sq(Sq(r))) == Sq(MU)
  {
    assert k * (r * r * r) == MU && q * r == MU;
    assert ((k * Sq(r)) - q) * r == 0.0;
    EncounterPlane.NonzeroFactor(r, k * Sq(r) - q);
    EncounterPlane.ScaleDot(-k, p, p);
    EncounterPlane.ScaleNorm(-k, p);
    SquaredPull(k, r);
    ParallelCross(-k, p);
    QuotientPositive(MU, r);
  }

  lemma SquaredPull(k: real, r: real)
    requires k * (r * r * r) == MU
    ensures Times(Times(Sq(-k), Sq(r)), Sq(Sq(r))) == Sq(MU)
  {
    assert (k * (r * r * r)) * (k * (r * r * r)) == ((-k) * (-k)) * (r * r) * ((r * r) * (r * r));
  }

  /** The atmosphere turns with the Earth. */
  lemma AirspeedIsRelative(s: State)
    ensures Airspeed(s) == Sub(s.v, Cross(V3(0.0, 0.0, OMEGA), s.p))
  {}

  /** d opposes the airspeed with rho v^2 / (2 bc). */
  ghost predicate Opposes(d: V3, air: V3, rho: real, speed: real, bc: real) {
    Cross(d, air) == ZERO && Dot(d, air) < 0.0 && Times(Norm2(d), Sq(2.0 * bc)) == Sq(rho * Sq(speed))
  }

  lemma PushOpposes(sqrt: real -> real, rho: real, air: V3, bc: real)
    requires IsRoot(sqrt) && bc > 0.0
    ensures var d, speed := Push(sqrt, rho, air, bc), sqrt(Norm2(air));
      if rho > 0.0 && speed >= 0.000001 then Opposes(d, air, rho, speed, bc) else d == ZERO
  {
    var speed := sqrt(Norm2(air));
    NormPositive(air);
    assert Sq(sqrt(Norm2(air))) == Norm2(air);
    if rho > 0.0 && speed >= 0.000001 {
      ResistanceOpposes(air, rho, speed, bc, Resistance(rho, speed, bc));
    }
  }

  /** Between the ground and 1000 km drag opposes the airspeed with rho v^2 / (2 bc), for the density there;
      elsewhere, and for a satellite carried along by the air, there is none. */
  lemma DragOpposesAirspeed(m: Maths, s: State, bc: real)
    requires IsRoot(m.sqrt) && bc > 0.0
    ensures var d, u, speed := Drag(m, s, bc), Airspeed(s), m.sqrt(Norm2(Airspeed(s)));
      var rho := OrbitalLifetime.Density(m.exp, Altitude(m, s.p));
      if 0.0 < Altitude(m, s.p) <= 1000.0 && rho > 0.0 && speed >= 0.000001 then Opposes(d, u, rho, speed, bc)
      else d == ZERO
  {
    PushOpposes(m.sqrt, OrbitalLifetime.Density(m.exp, Altitude(m, s.p)), Airspeed(s), bc);
  }

  lemma ResistanceOpposes(u: V3, rho: real, speed: real, bc: real, k: real)
    requires rho > 0.0 && speed > 0.0 && bc > 0.0 && Norm2(u) == Sq(speed) && k == Resistance(rho, speed, bc)
    ensures Cross(Scale(-k, u), u) == ZERO && Dot(Scale(-k, u), u) < 0.0
    ensures Times(Norm2(Scale(-k, u)), Sq(2.0 * bc)) == Sq(rho * Sq(speed))
  {
    ResistancePositive(rho, speed, bc, k);
    SquarePositive(speed);
    ProductPositive(k, Sq(speed), k * Sq(speed));
    EncounterPlane.ScaleDot(-k, u, u);
    EncounterPlane.ScaleNorm(-k, u);
    SquaredDrag(k, rho, speed, bc);
    ParallelCross(-k, u);
  }

  lemma ParallelCross(k: real, u: V3)
    ensures Cross(Scale(k, u), u) == ZERO
  {}

  lemma ResistancePositive(rho: real, speed: real, bc: real, k: real)
    requires rho > 0.0 && speed > 0.0 && bc > 0.0 && k == Resistance(rho, speed, bc)
    ensures k > 0.0 && k * bc == 0.5 * (rho * speed)
  {
    ProductPositive(rho, speed, rho * speed);
    assert 0.5 * rho * speed == 0.5 * (rho * speed);
    QuotientPositive(0.5 * rho * speed, bc);
  }

  lemma SquaredDrag(k: real, rho: real, speed: real, bc: real)
    requires k * bc == 0.5 * (rho * speed)
    ensures Times(Times(Sq(-k), Sq(speed)), Sq(2.0 * bc)) == Sq(rho * Sq(speed))
  {
    var x := 2.0 * (k * bc);
    assert x == rho * speed;
    assert ((-k) * (-k)) * (speed * speed) * ((2.0 * bc) * (2.0 * bc)) == (x * x) * (speed * speed);
    assert (x * x) * (speed * speed) == (x * speed) * (x * speed);
    assert x * speed == rho * Sq(speed);
  }

  /** The speed of the starting orbit is that of a circle: gravity is its centripetal acceleration. */
  lemma StartIsCircular(m: Maths, r0: real)
    requires IsRoot(m.sqrt) && r0 >= 0.001 && MU / r0 >= 0.0
    ensures Dot(Gravity(m, V3(r0, 0.0, 0.0)), V3(r0, 0.0, 0.0)) == -Sq(m.sqrt(MU / r0))
  {
    var p := V3(r0, 0.0, 0.0);
    assert Norm2(p) == Sq(r0);
    assert Sq(m.sqrt(Sq(r0))) == Sq(r0);
    SquareOrder(m.sqrt(Sq(r0)), r0);
    SquareOrder(r0, m.sqrt(Sq(r0)));
    GravityIsCentral(m, p);
    assert Sq(m.sqrt(MU / r0)) == MU / r0;
  }

  // ---------- Runs ----------

  function Repeat(step: State -> State, s: State, n: nat): State {
    if n == 0 then s else step(Repeat(step, s, n - 1))
  }

  /** The sum of a cost over the states a run leaves. */
  function Accumulate(step: State -> State, cost: State -> real, s: State, n: nat): real {
    if n == 0 then 0.0 else Accumulate(step, cost, s, n - 1) + cost(Repeat(step, s, n - 1))
  }

  function Stepper(m: Maths, bc: real, compensation: real, h: real): State -> State
    requires bc != 0.0
  {
    (s: State) => Rk4(m, s, NetDrag(m, s, bc, compensation), h)
  }

  function Run(m: Maths, s: State, bc: real, compensation: real, h: real, n: nat): State
    requires bc != 0.0
  {
    Repeat(Stepper(m, bc, compensation, h), s, n)
  }

  /** Pure two-body motion: the same integrator without any drag term. */
  function TwoBodyStep(m: Maths, s: State, h: real): State {
    var a1 := Gravity(m, s.p);
    var s2 := State(Axpy(s.p, 0.5 * h, s.v), Axpy(s.v, 0.5 * h, a1));
    var a2 := Gravity(m, s2.p);
    var s3 := State(Axpy(s.p, 0.5 * h, s2.v), Axpy(s.v, 0.5 * h, a2));
    var a3 := Gravity(m, s3.p);
    var s4 := State(Axpy(s.p, h, s3.v), Axpy(s.v, h, a3));
    var a4 := Gravity(m, s4.p);
    State(Axpy(s.p, h / 6.0, Slopes(s.v, s2.v, s3.v, s4.v)), Axpy(s.v, h / 6.0, Slopes(a1, a2, a3, a4)))
  }

  function TwoBody(m: Maths, s: State, h: real, n: nat): State {
    Repeat((t: State) => TwoBodyStep(m, t, h), s, n)
  }

  /** Magnitude of an acceleration times the step length. */
  function Impulse(sqrt: real -> real, a: V3, h: real): real {
    sqrt(Norm2(a)) * h
  }

  /** The impulse of an acceleration held over a step is its length times the step. */
  lemma ImpulseMeans(sqrt: real -> real, a: V3, h: real)
    requires IsRoot(sqrt) && h >= 0.0
    ensures Impulse(sqrt, a, h) >= 0.0 && Sq(Impulse(sqrt, a, h)) == Times(Sq(h), Norm2(a))
  {
    NormPositive(a);
    assert Sq(sqrt(Norm2(a))) == Norm2(a);
    SquareOfProduct(sqrt(Norm2(a)), h);
  }

  lemma SquareOfProduct(x: real, h: real)
    requires x >= 0.0 && h >= 0.0
    ensures x * h >= 0.0 && Sq(x * h) == Times(Sq(h), Sq(x))
  {}

  function ThrustCost(m: Maths, bc: real, compensation: real, h: real): State -> real
    requires bc != 0.0
  {
    (s: State) => Impulse(m.sqrt, Thrust(Drag(m, s, bc), compensation), h)
  }

  function DragCost(m: Maths, bc: real, h: real): State -> real
    requires bc != 0.0
  {
    (s: State) => Impulse(m.sqrt, Drag(m, s, bc), h)
  }

  /** The delta-v of the thruster over n steps. */
  function DeltaV(m: Maths, s: State, bc: real, compensation: real, h: real, n: nat): real
    requires bc != 0.0
  {
    Accumulate(Stepper(m, bc, compensation, h), ThrustCost(m, bc, compensation, h), s, n)
  }

  /** The impulse of the drag itself along the same run. */
  function DragImpulse(m: Maths, s: State, bc: real, compensation: real, h: real, n: nat): real
    requires bc != 0.0
  {
    Accumulate(Stepper(m, bc, compensation, h), DragCost(m, bc, h), s, n)
  }

  lemma {:induction false} RepeatEqual(f: State -> State, g: State -> State, s: State, n: nat)
    requires forall t :: f(t) == g(t)
    ensures Repeat(f, s, n) == Repeat(g, s, n)
  {
    if n > 0 {
      RepeatEqual(f, g, s, n - 1);
    }
  }

  lemma {:induction false} RepeatKeeps(f: State -> State, keep: State -> bool, s: State, n: nat)
    requires keep(s) && forall t {:trigger f(t)} :: keep(t) ==> keep(f(t))
    ensures keep(Repeat(f, s, n))
  {
    if n > 0 {
      RepeatKeeps(f, keep, s, n - 1);
    }
  }

  lemma {:induction false} AccumulateScales(f: State -> State, c: State -> real, d: State -> real, k: real, s: State,
                                            n: nat)
    requires forall t :: d(t) == Times(k, c(t))
    ensures Accumulate(f, d, s, n) == Times(k, Accumulate(f, c, s, n))
  {
    if n == 0 {
      assert Times(k, 0.0) == 0.0;
    } else {
      AccumulateScales(f, c, d, k, s, n - 1);
      ScaledSum(k, Accumulate(f, c, s, n - 1), c(Repeat(f, s, n - 1)));
    }
  }

  lemma ScaledSum(k: real, a: real, b: real)
    ensures Times(k, a + b) == Times(k, a) + Times(k, b)
  {}

  // ---------- Properties of every run ----------

  /** At fraction k the net drag is (1 - k) times the drag. */
  lemma NetDragIsRemainder(m: Maths, s: State, bc: real, compensation: real)
    requires bc != 0.0
    ensures NetDrag(m, s, bc, compensation) == Scale(1.0 - compensation, Drag(m, s, bc))
  {
    Remainder(Drag(m, s, bc), compensation);
  }

  lemma Remainder(d: V3, k: real)
    ensures Add(d, Scale(-k, d)) == Scale(1.0 - k, d)
  {}

  lemma NoExtraIsTwoBody(m: Maths, s: State, h: real)
    ensures Rk4(m, s, ZERO, h) == TwoBodyStep(m, s, h)
  {
    forall a: V3
      ensures Add(a, ZERO) == a
    {}
  }

  lemma FullStepIsTwoBody(m: Maths, s: State, bc: real, h: real)
    requires bc != 0.0
    ensures Stepper(m, bc, 1.0, h)(s) == TwoBodyStep(m, s, h)
  {
    NetDragIsRemainder(m, s, bc, 1.0);
    assert Scale(1.0 - 1.0, Drag(m, s, bc)) == ZERO;
    NoExtraIsTwoBody(m, s, h);
  }

  /** Fully compensated, every trajectory is the two-body one. */
  lemma FullCompensationIsTwoBody(m: Maths, s: State, bc: real, h: real, n: nat)
    requires bc != 0.0
    ensures Run(m, s, bc, 1.0, h, n) == TwoBody(m, s, h, n)
  {
    var f, g := Stepper(m, bc, 1.0, h), (t: State) => TwoBodyStep(m, t, h);
    forall t
      ensures f(t) == g(t)
    {
      FullStepIsTwoBody(m, t, bc, h);
    }
    RepeatEqual(f, g, s, n);
  }

  /** ... and does not depend on the ballistic coefficient. */
  lemma FullCompensationIgnoresBallistics(m: Maths, s: State, bc: real, bc': real, h: real, n: nat)
    requires bc != 0.0 && bc' != 0.0
    ensures Run(m, s, bc, 1.0, h, n) == Run(m, s, bc', 1.0, h, n)
  {
    FullCompensationIsTwoBody(m, s, bc, h, n);
    FullCompensationIsTwoBody(m, s, bc', h, n);
  }

  predicate Equatorial(s: State) {
    s.p.z == 0.0 && s.v.z == 0.0
  }

  lemma FlatForces(m: Maths, s: State, bc: real, compensation: real)
    requires bc != 0.0 && Equatorial(s)
    ensures Gravity(m, s.p).z == 0.0 && NetDrag(m, s, bc, compensation).z == 0.0
  {
    FlatGravity(m, s.p);
    NetDragIsRemainder(m, s, bc, compensation);
    FlatDrag(m, s, bc);
  }

  lemma FlatDrag(m: Maths, s: State, bc: real)
    requires bc != 0.0 && Equatorial(s)
    ensures Drag(m, s, bc).z == 0.0
  {}

  lemma FlatGravity(m: Maths, p: V3)
    requires p.z == 0.0
    ensures Gravity(m, p).z == 0.0
  {}

  lemma FlatAxpy(a: V3, k: real, b: V3)
    requires a.z == 0.0 && b.z == 0.0
    ensures Axpy(a, k, b).z == 0.0
  {}

  lemma FlatStage(m: Maths, t: State, k: real, v: V3, a: V3, extra: V3)
    requires v.z == 0.0 && a.z == 0.0 && extra.z == 0.0 && Equatorial(t)
    ensures Equatorial(State(Axpy(t.p, k, v), Axpy(t.v, k, a)))
    ensures Add(Gravity(m, Axpy(t.p, k, v)), extra).z == 0.0
  {
    FlatAxpy(t.p, k, v);
    FlatAxpy(t.v, k, a);
    FlatGravity(m, Axpy(t.p, k, v));
  }

  lemma StepStaysEquatorial(m: Maths, s: State, extra: V3, h: real)
    requires Equatorial(s) && extra.z == 0.0
    ensures Equatorial(Rk4(m, s, extra, h))
  {
    var a1 := Add(Gravity(m, s.p), extra);
    FlatGravity(m, s.p);
    FlatStage(m, s, 0.5 * h, s.v, a1, extra);
    var s2 := State(Axpy(s.p, 0.5 * h, s.v), Axpy(s.v, 0.5 * h, a1));
    var a2 := Add(Gravity(m, s2.p), extra);
    FlatStage(m, s, 0.5 * h, s2.v, a2, extra);
    var s3 := State(Axpy(s.p, 0.5 * h, s2.v), Axpy(s.v, 0.5 * h, a2));
    var a3 := Add(Gravity(m, s3.p), extra);
    FlatStage(m, s, h, s3.v, a3, extra);
    var s4 := State(Axpy(s.p, h, s3.v), Axpy(s.v, h, a3));
    var a4 := Add(Gravity(m, s4.p), extra);
    FlatAxpy(s.p, h / 6.0, Slopes(s.v, s2.v, s3.v, s4.v));
    FlatAxpy(s.v, h / 6.0, Slopes(a1, a2, a3, a4));
  }

  /** Every reachable state of an orbit started in the equatorial plane stays there. */
  lemma RunStaysEquatorial(m: Maths, s: State, bc: real, compensation: real, h: real, n: nat)
    requires bc != 0.0 && Equatorial(s)
    ensures Equatorial(Run(m, s, bc, compensation, h, n))
  {
    var f := Stepper(m, bc, compensation, h);
    forall t | Equatorial(t)
      ensures Equatorial(f(t))
    {
      FlatForces(m, t, bc, compensation);
      StepStaysEquatorial(m, t, NetDrag(m, t, bc, compensation), h);
    }
    RepeatKeeps(f, Equatorial, s, n);
  }

  /** The thruster spends the compensated fraction of the drag's impulse. */
  lemma DeltaVIsFractionOfDrag(m: Maths, s: State, bc: real, compensation: real, h: real, n: nat)
    requires bc != 0.0 && compensation >= 0.0 && IsRoot(m.sqrt)
    ensures DeltaV(m, s, bc, compensation, h, n) == Times(compensation, DragImpulse(m, s, bc, compensation, h, n))
  {
    var thrust, drag := ThrustCost(m, bc, compensation, h), DragCost(m, bc, h);
    forall t
      ensures thrust(t) == Times(compensation, drag(t))
    {
      ImpulseScales(m.sqrt, Drag(m, t, bc), compensation, h);
    }
    AccumulateScales(Stepper(m, bc, compensation, h), drag, thrust, compensation, s, n);
  }

  lemma ImpulseScales(sqrt: real -> real, d: V3, k: real, h: real)
    requires IsRoot(sqrt) && k >= 0.0
    ensures Impulse(sqrt, Thrust(d, k), h) == Times(k, Impulse(sqrt, d, h))
  {
    RootOfThrust(sqrt, d, k);
    ScaledTimes(k, sqrt(Norm2(d)), sqrt(Norm2(Thrust(d, k))), h, Impulse(sqrt, d, h), Impulse(sqrt, Thrust(d, k), h));
  }

  lemma ScaledTimes(k: real, a: real, b: real, h: real, u: real, v: real)
    requires b == Times(k, a) && u == a * h && v == b * h
    ensures v == Times(k, u)
  {
    assert b * h == k * (a * h);
  }

  lemma RootOfThrust(sqrt: real -> real, d: V3, k: real)
    requires IsRoot(sqrt) && k >= 0.0
    ensures sqrt(Norm2(Thrust(d, k))) == Times(k, sqrt(Norm2(d)))
  {
    EncounterPlane.ScaleNorm(-k, d);
    NormPositive(d);
    NormPositive(Thrust(d, k));
    var q := Norm2(d);
    var a, b := sqrt(Norm2(Thrust(d, k))), Times(k, sqrt(q));
    assert Sq(sqrt(Norm2(Thrust(d, k)))) == Norm2(Thrust(d, k));
    assert Sq(sqrt(q)) == q;
    SquareOfScaled(k, sqrt(q));
    OrbitalLifetime.ProductSign(k, sqrt(q), b);
    SquareOrder(a, b);
    SquareOrder(b, a);
  }

  lemma SquareOfScaled(k: real, x: real)
    ensures Sq(Times(k, x)) == Sq(-k) * Sq(x)
  {
    assert (x * k) * (x * k) == ((-k) * (-k)) * (x * x);
  }

  // ---------- The simulation ----------

  const MAX_STEPS := 200000

  /** Number and length of the steps: a minute each, longer beyond 200000 steps, never fewer than the
      requested samples. */
  function Grid(total: real, samples: nat): (nat, real)
  {
    var n := (total / 60.0).Floor;
    if n > MAX_STEPS then (if samples > MAX_STEPS then samples else MAX_STEPS, total / MAX_STEPS as real)
    else (if samples > n then samples else n, 60.0)
  }

  /** A horizon of at least a minute a sample is missed by less than a minute; a shorter one is overrun to
      one minute a sample.  Past 200000 minutes, more samples than steps stretch the simulated time by their
      share of 200000. */
  lemma SimulatedHorizon(total: real, samples: nat)
    ensures var (n, h) := Grid(total, samples);
      if (total / 60.0).Floor > 200000 && samples > 200000 then
        n as real * h == total * (samples as real / 200000.0)
      else if samples as real * 60.0 <= total then total - 60.0 < n as real * h <= total
      else n == samples && h == 60.0
  {
    var k := (total / 60.0).Floor;
    assert k as real <= total / 60.0 < k as real + 1.0;
    if k > MAX_STEPS && samples <= MAX_STEPS {
      assert MAX_STEPS as real * (total / MAX_STEPS as real) == total;
    }
  }

  method SimulateContinuousManeuver(m: Maths, altitude: real, bc: real, total: real, compensation: real, samples: nat)
    returns (final: State, deltaV: real, steps: nat, h: real)
    requires bc != 0.0 && samples > 0 && EARTH_RADIUS_KM + altitude != 0.0
    ensures (steps, h) == Grid(total, samples)
    ensures var r0 := (EARTH_RADIUS_KM + altitude) * 1000.0;
      var s := State(V3(r0, 0.0, 0.0), V3(0.0, m.sqrt(MU / r0), 0.0));
      && Equatorial(final)
      && final == Run(m, s, bc, compensation, h, steps)
      && deltaV == DeltaV(m, s, bc, compensation, h, steps)
  {
    var r0 := (EARTH_RADIUS_KM + altitude) * 1000.0;
    var s := State(V3(r0, 0.0, 0.0), V3(0.0, m.sqrt(MU / r0), 0.0));
    steps, h := Grid(total, samples).0, Grid(total, samples).1;
    final, deltaV := Advance(m, s, bc, compensation, h, steps);
    RunStaysEquatorial(m, s, bc, compensation, h, steps);
  }

  method Advance(m: Maths, s: State, bc: real, compensation: real, h: real, steps: nat)
    returns (final: State, deltaV: real)
    requires bc != 0.0
    ensures final == Run(m, s, bc, compensation, h, steps)
    ensures deltaV == DeltaV(m, s, bc, compensation, h, steps)
  {
    final, deltaV := s, 0.0;
    for i := 0 to steps
      invariant final == Run(m, s, bc, compensation, h, i)
      invariant deltaV == DeltaV(m, s, bc, compensation, h, i)
    {
      NextOfRun(m, s, bc, compensation, h, i);
      var impulse;
      impulse, final := OneStep(m, final, bc, compensation, h);
      deltaV := deltaV + impulse;
    }
  }

  lemma NextOfRun(m: Maths, s: State, bc: real, compensation: real, h: real, n: nat)
    requires bc != 0.0
    ensures Run(m, s, bc, compensation, h, n + 1) == Stepper(m, bc, compensation, h)(Run(m, s, bc, compensation, h, n))
    ensures DeltaV(m, s, bc, compensation, h, n + 1) == DeltaV(m, s, bc, compensation, h, n)
              + ThrustCost(m, bc, compensation, h)(Run(m, s, bc, compensation, h, n))
  {}

  method OneStep(m: Maths, s: State, bc: real, compensation: real, h: real) returns (impulse: real, next: State)
    requires bc != 0.0
    ensures impulse == ThrustCost(m, bc, compensation, h)(s) && next == Stepper(m, bc, compensation, h)(s)
  {
    var drag := Drag(m, s, bc);
    var thrust := Thrust(drag, compensation);
    impulse := Impulse(m.sqrt, thrust, h);
    next := Rk4(m, s, Add(drag, thrust), h);
  }
}
