/** The RK4 + J2 propagator and the orbital-element conversion, with their symmetries.  The square root
    is an arbitrary function; every division by zero is an error (None). */
module Propagation {
  import opened Prelude
  import opened Vectors

  const MU := 398600441800000.0
  const RE := 6378136.3
  const J2 := 0.00108262668

  type Sqrt = real -> real
  datatype State = State(p: V3, v: V3)

  // ---------- Acceleration ----------

  /** Gravity and J2 for given radial factors; zr2 is the squared sine of the latitude. */
  function Pull(fac: real, j2f: real, zr2: real, p: V3): V3 {
    V3(fac * p.x + j2f * p.x * (1.0 - 5.0 * zr2),
       fac * p.y + j2f * p.y * (1.0 - 5.0 * zr2),
       fac * p.z + j2f * p.z * (3.0 - 5.0 * zr2))
  }

  function Central(r2: real, r: real): real
    requires r2 * r != 0.0
  {
    -MU / (r2 * r)
  }

  function Oblate(r2: real, r: real): real
    requires r2 * r * r2 != 0.0
  {
    1.5 * J2 * MU * RE * RE / (r2 * r * r2)
  }

  function Latitude2(z: real, r: real): real
    requires r != 0.0
  {
    (z / r) * (z / r)
  }

  predicate Degenerate(r2: real, r: real) {
    r == 0.0 || r2 * r == 0.0 || r2 * r * r2 == 0.0
  }

  function Accel(sqrt: Sqrt, p: V3): Option<V3> {
    var r2 := Norm2(p);
    var r := sqrt(r2);
    if Degenerate(r2, r) then None
    else Some(Pull(Central(r2, r), Oblate(r2, r), Latitude2(p.z, r), p))
  }

  /** An acceleration exists everywhere but at the centre. */
  lemma AccelerationIsDefined(sqrt: Sqrt, p: V3)
    requires IsRoot(sqrt)
    ensures Accel(sqrt, p).None? <==> p == ZERO
  {
    var r2 := Norm2(p);
    var r := sqrt(r2);
    SquaresVanish(p);
    assert Sq(sqrt(r2)) == r2;
    if p != ZERO {
      NonzeroProduct(r, r, r2);
      NonzeroProduct(r2, r, r2 * r);
      NonzeroProduct(r2 * r, r2, r2 * r * r2);
    }
  }

  lemma NonzeroProduct(x: real, y: real, p: real)
    requires p == x * y
    ensures p != 0.0 <==> x != 0.0 && y != 0.0
  {}

  lemma SquaresVanish(p: V3)
    ensures Norm2(p) >= 0.0 && (Norm2(p) == 0.0 <==> p == ZERO)
  {
    SquareVanishes(p.x);
    SquareVanishes(p.y);
    SquareVanishes(p.z);
  }

  lemma SquareVanishes(x: real)
    ensures x * x >= 0.0 && (x * x == 0.0 <==> x == 0.0)
  {
    if x > 0.0 {
      ProductPositive(x, x, x * x);
    } else if x < 0.0 {
      ProductPositive(-x, -x, x * x);
    }
  }

  /** The constants in kilometres. */
  lemma EarthFigures()
    ensures MU == 398600.4418 * 1000.0 * 1000.0 * 1000.0 && RE == 6378.1363 * 1000.0 && J2 * 1000.0 == 1.08262668
  {}

  /** The acceleration turns nothing about the pole. */
  lemma AccelerationIsAxial(sqrt: Sqrt, p: V3)
    requires Accel(sqrt, p).Some?
    ensures p.x * Accel(sqrt, p).value.y == p.y * Accel(sqrt, p).value.x
  {
    var r2 := Norm2(p);
    var r := sqrt(r2);
    PullAsFactors(Central(r2, r), Oblate(r2, r), Latitude2(p.z, r), p);
  }

  /** Equatorial bulge over the cube of the radius, relative to the central pull. */
  function Bulge(r: real): real
    requires r != 0.0
  {
    1.5 * J2 * ((RE / r) * (RE / r))
  }

  /** What a does to p across the radius, in the plane of x and z. */
  function Side(p: V3, a: V3): real { p.x * a.z - p.z * a.x }

  /** The pull towards the centre is MU / r^2 lessened by the bulge at the equator and increased by twice the
      bulge at the pole, and between them by 1 - 3 sin^2 of the latitude; across the radius in the plane of x and
      z it acts as twice the bulge. */
  lemma AccelerationByLatitude(sqrt: Sqrt, p: V3)
    requires IsRoot(sqrt) && Accel(sqrt, p).Some?
    ensures var a, r := Accel(sqrt, p).value, sqrt(Norm2(p));
      && r > 0.0
      && Dot(a, p) == -(MU / r) * (1.0 - Bulge(r) * (1.0 - 3.0 * Latitude2(p.z, r)))
      && Side(p, a) == 2.0 * Times(Times(MU / (r * r * r), Bulge(r)), Times(p.x, p.z))
  {
    var r2 := Norm2(p);
    var r, u := sqrt(r2), Latitude2(p.z, sqrt(r2));
    assert r2 >= 0.0 by { SumOfSquares(p); }
    assert Sq(sqrt(r2)) == r2;
    LatitudeSquared(p.z, r);
    Factors(r2, r);
    PullAlong(Central(r2, r), Oblate(r2, r), u, p, r2);
    RadialPull(MU / r, Bulge(r), Central(r2, r), Oblate(r2, r), r2, u, Dot(Accel(sqrt, p).value, p));
    var a := Accel(sqrt, p).value;
    SidePull(MU / (r * r * r), Bulge(r), Oblate(r2, r), Times(p.x, p.z), Side(p, a));
  }

  lemma SumOfSquares(p: V3)
    ensures Norm2(p) >= 0.0
  {
    assert p.x * p.x >= 0.0 && p.y * p.y >= 0.0 && p.z * p.z >= 0.0;
  }

  lemma LatitudeSquared(z: real, r: real)
    requires r != 0.0
    ensures Times(Latitude2(z, r), Sq(r)) == Sq(z)
  {
    var q := z / r;
    assert q * r == z;
    assert (q * q) * (r * r) == z * z;
  }

  /** Both factors in terms of the radius. */
  lemma Factors(r2: real, r: real)
    requires r != 0.0 && r2 == Sq(r) && r2 * r != 0.0 && r2 * r * r2 != 0.0
    ensures Times(Central(r2, r), r2) == -(MU / r)
    ensures Oblate(r2, r) == Times(MU / (r * r * r), Bulge(r))
    ensures Times(Oblate(r2, r), r2) == Times(MU / r, Bulge(r))
  {
    var r3 := r2 * r;
    var c, o, g, b := Central(r2, r), Oblate(r2, r), MU / r, Bulge(r);
    assert r * r * r == r3;
    assert c * r3 == -MU && g * r == MU;
    CancelRadius(c * r2, -g, r);
    var k, e := MU / r3, RE / r;
    assert k * r3 == MU && e * r == RE;
    assert o * (r3 * r2) == 1.5 * J2 * MU * RE * RE;
    BulgeFactor(k, e, r, r2, r3, o);
    assert o == k * b;
    assert (k * r2) * r == MU;
    CancelRadius(k * r2, g, r);
    assert o * r2 == (k * r2) * b;
  }

  lemma CancelRadius(x: real, y: real, r: real)
    requires r != 0.0 && x * r == y * r
    ensures x == y
  {}

  lemma BulgeFactor(k: real, e: real, r: real, r2: real, r3: real, o: real)
    requires r2 == r * r && r3 == r2 * r && r2 != 0.0 && r3 * r2 != 0.0
    requires k * r3 == MU && e * r == RE && o * (r3 * r2) == 1.5 * J2 * MU * RE * RE
    ensures o == k * (1.5 * J2 * (e * e))
  {
    assert RE * RE == (e * e) * r2;
    assert 1.5 * J2 * MU * RE * RE == 1.5 * J2 * ((k * r3) * ((e * e) * r2));
    assert (k * (1.5 * J2 * (e * e))) * (r3 * r2) == 1.5 * J2 * ((k * r3) * ((e * e) * r2));
    CancelRadius(o, k * (1.5 * J2 * (e * e)), r3 * r2);
  }

  lemma PullAlong(fac: real, j2f: real, u: real, p: V3, r2: real)
    requires r2 == Norm2(p) && Times(u, r2) == Sq(p.z)
    ensures var a := Pull(fac, j2f, u, p);
      && Dot(a, p) == Times(fac, r2) + Times(Times(j2f, r2), 1.0 - 3.0 * u)
      && Side(p, a) == 2.0 * Times(j2f, Times(p.x, p.z))
  {
    PullAsFactors(fac, j2f, u, p);
    var e, f := fac + j2f * (1.0 - 5.0 * u), fac + j2f * (3.0 - 5.0 * u);
    assert f == e + 2.0 * j2f;
    assert Dot(V3(e * p.x, e * p.y, f * p.z), p) == e * r2 + 2.0 * (j2f * (p.z * p.z));
    assert j2f * (u * r2) == (j2f * r2) * u;
    assert e * r2 == fac * r2 + (j2f * r2) * (1.0 - 5.0 * u);
  }

  lemma RadialPull(g: real, b: real, c: real, o: real, r2: real, u: real, radial: real)
    requires Times(c, r2) == -g && Times(o, r2) == Times(g, b)
    requires radial == Times(c, r2) + Times(Times(o, r2), 1.0 - 3.0 * u)
    ensures radial == -g * (1.0 - b * (1.0 - 3.0 * u))
  {
    assert (g * b) * (1.0 - 3.0 * u) == g * (b * (1.0 - 3.0 * u));
  }

  lemma SidePull(k: real, b: real, o: real, xz: real, side: real)
    requires o == Times(k, b) && side == 2.0 * Times(o, xz)
    ensures side == 2.0 * Times(Times(k, b), xz)
  {}

  // ---------- One Runge-Kutta step ----------

  function Rk4(sqrt: Sqrt, s: State, h: real): Option<State> {
    var a1 := Accel(sqrt, s.p);
    if a1.None? then None else
    var p2, v2 := Axpy(s.p, 0.5 * h, s.v), Axpy(s.v, 0.5 * h, a1.value);
    var a2 := Accel(sqrt, p2);
    if a2.None? then None else
    var p3, v3 := Axpy(s.p, 0.5 * h, v2), Axpy(s.v, 0.5 * h, a2.value);
    var a3 := Accel(sqrt, p3);
    if a3.None? then None else
    var p4, v4 := Axpy(s.p, h, v3), Axpy(s.v, h, a3.value);
    var a4 := Accel(sqrt, p4);
    if a4.None? then None else
    Some(State(Axpy(s.p, h / 6.0, Slopes(s.v, v2, v3, v4)),
               Axpy(s.v, h / 6.0, Slopes(a1.value, a2.value, a3.value, a4.value))))
  }

  /** One step from its four accelerations alone; it fails exactly when one of them does. */
  lemma StepFromAccelerations(sqrt: Sqrt, s: State, h: real)
    ensures var q2 := Add(s.p, Scale(h / 2.0, s.v));
      var a1, a2 := Accel(sqrt, s.p), Accel(sqrt, q2);
      Rk4(sqrt, s, h).None? <==>
        || a1.None? || a2.None?
        || var a3 := Accel(sqrt, Add(q2, Scale(h * h / 4.0, a1.value)));
           || a3.None?
           || Accel(sqrt, Add(Add(s.p, Scale(h, s.v)), Scale(h * h / 2.0, a2.value))).None?
    ensures Rk4(sqrt, s, h).Some? ==>
      var q2 := Add(s.p, Scale(h / 2.0, s.v));
      var a1, a2 := Accel(sqrt, s.p).value, Accel(sqrt, q2).value;
      var a3 := Accel(sqrt, Add(q2, Scale(h * h / 4.0, a1))).value;
      var a4 := Accel(sqrt, Add(Add(s.p, Scale(h, s.v)), Scale(h * h / 2.0, a2))).value;
      Rk4(sqrt, s, h) == Some(State(
        Add(Add(s.p, Scale(h, s.v)), Scale(h * h / 6.0, Add(Add(a1, a2), a3))),
        Add(s.v, Scale(h / 6.0, Weighed(a1, a2, a3, a4)))))
  {
    var a1, q2 := Accel(sqrt, s.p), Axpy(s.p, 0.5 * h, s.v);
    var a2 := Accel(sqrt, q2);
    StagePositions(s.p, s.v, h, ZERO, ZERO);
    if a1.Some? && a2.Some? {
      StagePositions(s.p, s.v, h, a1.value, a2.value);
      var a3 := Accel(sqrt, Axpy(s.p, 0.5 * h, Axpy(s.v, 0.5 * h, a1.value)));
      var a4 := Accel(sqrt, Axpy(s.p, h, Axpy(s.v, 0.5 * h, a2.value)));
      if a3.Some? && a4.Some? {
        PositionFromAccelerations(s.p, s.v, h, a1.value, a2.value, a3.value);
        SlopesAreWeighed(a1.value, a2.value, a3.value, a4.value);
        AxpyAdds(s.v, h / 6.0, Weighed(a1.value, a2.value, a3.value, a4.value));
      }
    }
  }

  function Stepper(sqrt: Sqrt, h: real): State -> Option<State> {
    (s: State) => Rk4(sqrt, s, h)
  }

  /** The states after 0, 1, ..., n applications of a step that may fail. */
  function States(step: State -> Option<State>, s: State, n: nat): (t: Option<seq<State>>)
    ensures t.Some? ==> |t.value| == n + 1
  {
    if n == 0 then Some([s])
    else
      var before := States(step, s, n - 1);
      if before.None? then None
      else
        var next := step(before.value[n - 1]);
        if next.None? then None else Some(before.value + [next.value])
  }

  function Track(sqrt: Sqrt, s: State, h: real, n: nat): (t: Option<seq<State>>)
    ensures t.Some? ==> |t.value| == n + 1
  {
    States(Stepper(sqrt, h), s, n)
  }

  /** A track starts at the given state and each further state is one step from the one before. */
  lemma {:induction false} TrackFollowsSteps(sqrt: Sqrt, s: State, h: real, n: nat)
    requires Track(sqrt, s, h, n).Some?
    ensures var t := Track(sqrt, s, h, n).value;
      t[0] == s && forall i :: 0 < i <= n ==> Some(t[i]) == Rk4(sqrt, t[i - 1], h)
  {
    if n > 0 {
      TrackFollowsSteps(sqrt, s, h, n - 1);
    }
  }

  method Propagate(sqrt: Sqrt, s: State, h: real, steps: nat) returns (t: Option<seq<State>>)
    ensures t == Track(sqrt, s, h, steps)
  {
    var states, current := [s], s;
    for i := 0 to steps
      invariant States(Stepper(sqrt, h), s, i) == Some(states) && states[i] == current
    {
      var next := Rk4(sqrt, current, h);
      if next.None? {
        StatesFailOn(Stepper(sqrt, h), s, i + 1, steps);
        return None;
      }
      current := next.value;
      states := states + [current];
    }
    return Some(states);
  }

  lemma {:induction false} StatesFailOn(step: State -> Option<State>, s: State, k: nat, n: nat)
    requires k <= n && States(step, s, k).None?
    ensures States(step, s, n).None?
  {
    if k < n {
      StatesFailOn(step, s, k, n - 1);
    }
  }

  // ---------- Symmetries ----------

  /** A rotation about the polar axis by the angle with cosine c and sine s, followed for m = -1 by
      the reflection in the equatorial plane. */
  datatype Symmetry = Symmetry(c: real, s: real, m: real) {
    ghost predicate Proper() {
      c * c + s * s == 1.0 && (m == 1.0 || m == -1.0)
    }

    function Move(a: V3): V3 {
      V3(c * a.x - s * a.y, s * a.x + c * a.y, m * a.z)
    }

    function MoveState(t: State): State {
      State(Move(t.p), Move(t.v))
    }
  }

  lemma MoveAxpy(g: Symmetry, a: V3, k: real, b: V3)
    ensures g.Move(Axpy(a, k, b)) == Axpy(g.Move(a), k, g.Move(b))
  {
    MoveAxpyX(g, a, k, b);
    MoveAxpyY(g, a, k, b);
    MoveAxpyZ(g, a, k, b);
  }

  lemma MoveAxpyX(g: Symmetry, a: V3, k: real, b: V3)
    ensures g.Move(Axpy(a, k, b)).x == Axpy(g.Move(a), k, g.Move(b)).x
  {
    var w, n := Axpy(a, k, b), g.Move(b);
    MovedTerm(g.c, a.x, b.x, w.x, -g.s, a.y, b.y, w.y, k, n.x);
  }

  lemma MoveAxpyY(g: Symmetry, a: V3, k: real, b: V3)
    ensures g.Move(Axpy(a, k, b)).y == Axpy(g.Move(a), k, g.Move(b)).y
  {
    var w, n := Axpy(a, k, b), g.Move(b);
    MovedTerm(g.s, a.x, b.x, w.x, g.c, a.y, b.y, w.y, k, n.y);
  }

  lemma MoveAxpyZ(g: Symmetry, a: V3, k: real, b: V3)
    ensures g.Move(Axpy(a, k, b)).z == Axpy(g.Move(a), k, g.Move(b)).z
  {
    var w, n := Axpy(a, k, b), g.Move(b);
    MovedTerm(g.m, a.z, b.z, w.z, 0.0, a.z, b.z, w.z, k, n.z);
  }

  lemma MovedTerm(c: real, ax: real, bx: real, wx: real, s: real, ay: real, b2: real, wy: real, k: real, n: real)
    requires wx == ax + Times(k, bx) && wy == ay + Times(k, b2) && n == c * bx + s * b2
    ensures c * wx + s * wy == c * ax + s * ay + Times(k, n)
  {
    assert c * (k * bx) == k * (c * bx);
    assert s * (k * b2) == k * (s * b2);
  }

  lemma MoveSlopes(g: Symmetry, k1: V3, k2: V3, k3: V3, k4: V3)
    ensures g.Move(Slopes(k1, k2, k3, k4)) == Slopes(g.Move(k1), g.Move(k2), g.Move(k3), g.Move(k4))
  {}

  lemma MoveKeepsNorm(g: Symmetry, a: V3)
    requires g.Proper()
    ensures Norm2(g.Move(a)) == Norm2(a)
  {
    var c, s, x, y := g.c, g.s, a.x, a.y;
    var u, v := c * x - s * y, s * x + c * y;
    calc {
      u * u + v * v;
      (c * c + s * s) * (x * x) + (c * c + s * s) * (y * y);
      x * x + y * y;
    }
  }

  lemma MovePull(g: Symmetry, fac: real, j2f: real, zr2: real, p: V3)
    ensures g.Move(Pull(fac, j2f, zr2, p)) == Pull(fac, j2f, zr2, g.Move(p))
  {
    var e, f := fac + j2f * (1.0 - 5.0 * zr2), fac + j2f * (3.0 - 5.0 * zr2);
    PullAsFactors(fac, j2f, zr2, p);
    PullAsFactors(fac, j2f, zr2, g.Move(p));
    assert g.c * (e * p.x) - g.s * (e * p.y) == e * (g.c * p.x - g.s * p.y);
    assert g.s * (e * p.x) + g.c * (e * p.y) == e * (g.s * p.x + g.c * p.y);
    assert g.m * (f * p.z) == f * (g.m * p.z);
  }

  lemma PullAsFactors(fac: real, j2f: real, zr2: real, p: V3)
    ensures var e, f := fac + j2f * (1.0 - 5.0 * zr2), fac + j2f * (3.0 - 5.0 * zr2);
      Pull(fac, j2f, zr2, p) == V3(e * p.x, e * p.y, f * p.z)
  {}

  lemma AccelCommutes(sqrt: Sqrt, g: Symmetry, p: V3)
    requires g.Proper()
    ensures Accel(sqrt, g.Move(p)) == if Accel(sqrt, p).None? then None else Some(g.Move(Accel(sqrt, p).value))
  {
    MoveKeepsNorm(g, p);
    var r2 := Norm2(p);
    var r := sqrt(r2);
    if !Degenerate(r2, r) {
      LatitudeMirror(g.m, p.z, r);
      MovePull(g, Central(r2, r), Oblate(r2, r), Latitude2(p.z, r), p);
    }
  }

  lemma LatitudeMirror(m: real, z: real, r: real)
    requires r != 0.0 && (m == 1.0 || m == -1.0)
    ensures Latitude2(m * z, r) == Latitude2(z, r)
  {
    if m == -1.0 {
      assert (-z) / r == -(z / r);
    }
  }

  lemma Rk4Commutes(sqrt: Sqrt, g: Symmetry, t: State, h: real)
    requires g.Proper()
    ensures Rk4(sqrt, g.MoveState(t), h) ==
            if Rk4(sqrt, t, h).None? then None else Some(g.MoveState(Rk4(sqrt, t, h).value))
  {
    AccelCommutes(sqrt, g, t.p);
    var a1 := Accel(sqrt, t.p);
    if a1.None? { return; }
    MoveAxpy(g, t.p, 0.5 * h, t.v);
    MoveAxpy(g, t.v, 0.5 * h, a1.value);
    var p2, v2 := Axpy(t.p, 0.5 * h, t.v), Axpy(t.v, 0.5 * h, a1.value);
    AccelCommutes(sqrt, g, p2);
    var a2 := Accel(sqrt, p2);
    if a2.None? { return; }
    MoveAxpy(g, t.p, 0.5 * h, v2);
    MoveAxpy(g, t.v, 0.5 * h, a2.value);
    var p3, v3 := Axpy(t.p, 0.5 * h, v2), Axpy(t.v, 0.5 * h, a2.value);
    AccelCommutes(sqrt, g, p3);
    var a3 := Accel(sqrt, p3);
    if a3.None? { return; }
    MoveAxpy(g, t.p, h, v3);
    MoveAxpy(g, t.v, h, a3.value);
    var p4, v4 := Axpy(t.p, h, v3), Axpy(t.v, h, a3.value);
    AccelCommutes(sqrt, g, p4);
    var a4 := Accel(sqrt, p4);
    if a4.None? { return; }
    MoveSlopes(g, t.v, v2, v3, v4);
    MoveSlopes(g, a1.value, a2.value, a3.value, a4.value);
    MoveAxpy(g, t.p, h / 6.0, Slopes(t.v, v2, v3, v4));
    MoveAxpy(g, t.v, h / 6.0, Slopes(a1.value, a2.value, a3.value, a4.value));
  }

  function MoveAll(g: Symmetry, t: seq<State>): seq<State> {
    seq(|t|, i requires 0 <= i < |t| => g.MoveState(t[i]))
  }

  function MoveTrack(g: Symmetry, t: Option<seq<State>>): Option<seq<State>> {
    if t.None? then None else Some(MoveAll(g, t.value))
  }

  function MoveMaybe(g: Symmetry, t: Option<State>): Option<State> {
    if t.None? then None else Some(g.MoveState(t.value))
  }

  lemma {:induction false} StatesCommute(step: State -> Option<State>, g: Symmetry, s: State, n: nat)
    requires forall t {:trigger step(g.MoveState(t))} :: step(g.MoveState(t)) == MoveMaybe(g, step(t))
    ensures States(step, g.MoveState(s), n) == MoveTrack(g, States(step, s, n))
  {
    if n == 0 {
      assert MoveAll(g, [s]) == [g.MoveState(s)];
    } else {
      StatesCommute(step, g, s, n - 1);
      var before := States(step, s, n - 1);
      if before.Some? {
        var last := before.value[n - 1];
        assert MoveAll(g, before.value)[n - 1] == g.MoveState(last);
        assert step(g.MoveState(last)) == MoveMaybe(g, step(last));
        if step(last).Some? {
          MoveAllAppend(g, before.value, step(last).value);
        }
      }
    }
  }

  lemma MoveAllAppend(g: Symmetry, t: seq<State>, x: State)
    ensures MoveAll(g, t + [x]) == MoveAll(g, t) + [g.MoveState(x)]
  {}

  /** Propagation commutes with every polar rotation and with the equatorial mirror, for any number of
      steps; a track fails for the moved state exactly when it fails for the original. */
  lemma TrackCommutes(sqrt: Sqrt, g: Symmetry, s: State, h: real, n: nat)
    requires g.Proper()
    ensures Track(sqrt, g.MoveState(s), h, n) == MoveTrack(g, Track(sqrt, s, h, n))
  {
    forall t
      ensures Stepper(sqrt, h)(g.MoveState(t)) == MoveMaybe(g, Stepper(sqrt, h)(t))
    {
      Rk4Commutes(sqrt, g, t, h);
    }
    StatesCommute(Stepper(sqrt, h), g, s, n);
  }

  // ---------- Orbital elements ----------

  /** Elements with every angle given by its cosine and sine. */
  datatype Orbit = Orbit(a: real, e: real, ci: real, si: real, cr: real, sr: real, cw: real, sw: real, cn: real,
                         sn: real)

  /** Position and velocity coordinates in the orbital plane. */
  function Perifocal(sqrt: Sqrt, a: real, e: real, cn: real, sn: real): Option<(real, real, real, real)> {
    FromParameter(sqrt, Parameter(a, e), Openness(e, cn), e, cn, sn)
  }

  /** The semi-latus rectum, and its ratio to the radius at a true anomaly. */
  function Parameter(a: real, e: real): real { a * (1.0 - e * e) }

  function Openness(e: real, cn: real): real { 1.0 + e * cn }

  /** The same from the semi-latus rectum p and its ratio q to the radius. */
  function FromParameter(sqrt: Sqrt, p: real, q: real, e: real, cn: real, sn: real): Option<(real, real, real, real)> {
    var h := sqrt(MU * p);
    if q == 0.0 || MU * p < 0.0 || h == 0.0 then None
    else Some(Conic(p / q, MU / h, e, cn, sn))
  }

  function Conic(r: real, w: real, e: real, cn: real, sn: real): (real, real, real, real) {
    (r * cn, r * sn, -w * sn, w * (e + cn))
  }

  /** Elements have no state exactly when the semi-latus rectum is not positive or the anomaly leads to infinity. */
  lemma ElementsFailExactly(sqrt: Sqrt, o: Orbit)
    requires IsRoot(sqrt)
    ensures ToEci(sqrt, o).None? <==> o.a * (1.0 - o.e * o.e) <= 0.0 || o.e * o.cn == -1.0
  {
    ParameterFails(sqrt, Parameter(o.a, o.e), Openness(o.e, o.cn), o.e, o.cn, o.sn);
  }

  lemma ParameterFails(sqrt: Sqrt, p: real, q: real, e: real, cn: real, sn: real)
    requires IsRoot(sqrt)
    ensures FromParameter(sqrt, p, q, e, cn, sn).None? <==> p <= 0.0 || q == 0.0
  {
    if p >= 0.0 {
      var h := sqrt(MU * p);
      assert Sq(sqrt(MU * p)) == MU * p;
      SquareVanishes(h);
    }
  }

  function ToEci(sqrt: Sqrt, o: Orbit): Option<State> {
    var c := Perifocal(sqrt, o.a, o.e, o.cn, o.sn);
    if c.None? then None
    else Some(State(InPlane(o, c.value.0, c.value.1), InPlane(o, c.value.2, c.value.3)))
  }

  /** A vector of the orbital plane in inertial axes. */
  function InPlane(o: Orbit, x: real, y: real): V3 {
    V3((o.cr * o.cw - o.sr * o.sw * o.ci) * x + (-(o.cr * o.sw) - o.sr * o.cw * o.ci) * y,
       (o.sr * o.cw + o.cr * o.sw * o.ci) * x + (-(o.sr * o.sw) + o.cr * o.cw * o.ci) * y,
       (o.sw * o.si) * x + (o.cw * o.si) * y)
  }

  // ---------- What the conversion means ----------

  predicate Angle(c: real, s: real) { Sq(c) + Sq(s) == 1.0 }

  predicate IsConic(c: (real, real, real, real), r: real, h: real, a: real, e: real)
    requires r != 0.0 && a != 0.0
  {
    var (x, y, vx, vy) := c;
    && Sq(x) + Sq(y) == Sq(r)
    && Times(x, vy) - Times(y, vx) == h
    && Sq(vx) + Sq(vy) == 2.0 * (MU / r) - MU / a
    && Times(vy, h) == MU * (e + x / r) && Times(vx, h) == -MU * (y / r)
  }

  /** The radius, the angular momentum and the speed of the conic with semi-major axis a and eccentricity e at the
      true anomaly given: the orbit equation, the area law and the vis-viva equation, and the eccentricity vector
      along the first axis. */
  lemma PerifocalIsTheConic(sqrt: Sqrt, a: real, e: real, cn: real, sn: real)
    requires IsRoot(sqrt) && Angle(cn, sn) && Perifocal(sqrt, a, e, cn, sn).Some?
    ensures var p, h := Parameter(a, e), sqrt(MU * Parameter(a, e));
      var r := p / Openness(e, cn);
      && h > 0.0 && Sq(h) == MU * p && a != 0.0 && r != 0.0
      && IsConic(Perifocal(sqrt, a, e, cn, sn).value, r, h, a, e)
  {
    ParameterIsTheConic(sqrt, Parameter(a, e), Openness(e, cn), a, e, cn, sn);
  }

  lemma ParameterIsTheConic(sqrt: Sqrt, p: real, q: real, a: real, e: real, cn: real, sn: real)
    requires IsRoot(sqrt) && Angle(cn, sn) && FromParameter(sqrt, p, q, e, cn, sn).Some?
    requires p == a * (1.0 - e * e) && q == 1.0 + e * cn
    ensures var h, r := sqrt(MU * p), p / q;
      && h > 0.0 && Sq(h) == MU * p && a != 0.0 && r != 0.0
      && IsConic(FromParameter(sqrt, p, q, e, cn, sn).value, r, h, a, e)
  {
    var h := sqrt(MU * p);
    var r, w := p / q, MU / h;
    assert Sq(sqrt(MU * p)) == MU * p;
    Divided(p, q);
    Divided(MU, h);
    ConicRadius(p, q, r, h, a, e);
    ConicLaws(FromParameter(sqrt, p, q, e, cn, sn).value, a, e, cn, sn, p, q, r, w, h);
  }

  lemma Divided(x: real, y: real)
    requires y != 0.0
    ensures x / y * y == x
  {}

  lemma ConicLaws(c: (real, real, real, real), a: real, e: real, cn: real, sn: real,
                  p: real, q: real, r: real, w: real, h: real)
    requires c == Conic(r, w, e, cn, sn)
    requires Angle(cn, sn) && p == a * (1.0 - e * e) && q == 1.0 + e * cn && r * q == p
    requires w * h == MU && Sq(h) == MU * p && h != 0.0 && a != 0.0 && r != 0.0 && p != 0.0
    ensures IsConic(c, r, h, a, e)
  {
    assert c.0 == r * cn && c.1 == r * sn && c.2 == -w * sn && c.3 == w * (e + cn);
    OnCircle(r, cn, sn);
    AreaLaw(r, w, e, cn, sn, q, p, h);
    VisViva(a, e, cn, sn, p, q, r, w, h);
    PerigeeLaw(r, w, e, cn, sn, h);
  }

  lemma PerigeeLaw(r: real, w: real, e: real, c: real, s: real, h: real)
    requires r != 0.0 && w * h == MU
    ensures Times(w * (e + c), h) == MU * (e + (r * c) / r) && Times(-w * s, h) == -MU * ((r * s) / r)
  {
    assert (r * c) / r == c && (r * s) / r == s;
    assert (w * (e + c)) * h == (w * h) * (e + c) && (-w * s) * h == -((w * h) * s);
  }

  lemma ConicRadius(p: real, q: real, r: real, h: real, a: real, e: real)
    requires h != 0.0 && Sq(h) == MU * p && r * q == p && p == a * (1.0 - e * e)
    ensures p != 0.0 && r != 0.0 && a != 0.0
  {
    SquareNonzero(h);
  }

  lemma SquareNonzero(h: real)
    requires h != 0.0
    ensures Sq(h) != 0.0
  {
    if h > 0.0 {
      ProductPositive(h, h, Sq(h));
    } else {
      ProductPositive(-h, -h, Sq(h));
    }
  }

  lemma OnCircle(r: real, c: real, s: real)
    requires Angle(c, s)
    ensures Sq(r * c) + Sq(r * s) == Sq(r)
  {
    assert Sq(r * c) == Sq(r) * Sq(c) && Sq(r * s) == Sq(r) * Sq(s);
    assert Sq(r) * Sq(c) + Sq(r) * Sq(s) == Sq(r) * (Sq(c) + Sq(s));
  }

  lemma AreaLaw(r: real, w: real, e: real, c: real, s: real, q: real, p: real, h: real)
    requires Angle(c, s) && q == 1.0 + e * c && r * q == p && w * h == MU && Sq(h) == MU * p && h != 0.0
    ensures Times(r * c, w * (e + c)) - Times(r * s, -w * s) == h
  {
    var k := r * w;
    assert (r * c) * (w * (e + c)) == k * (e * c + c * c) && (r * s) * (-w * s) == -(k * (s * s));
    assert k * (e * c + c * c) + k * (s * s) == k * (e * c + (Sq(c) + Sq(s)));
    assert k * q == w * p;
    assert (w * p) * h == p * MU;
    CancelRadius(w * p, h, h);
  }

  lemma VisViva(a: real, e: real, c: real, s: real, p: real, q: real, r: real, w: real, h: real)
    requires Angle(c, s) && p == a * (1.0 - e * e) && q == 1.0 + e * c && r * q == p
    requires w * h == MU && Sq(h) == MU * p && h != 0.0 && a != 0.0 && r != 0.0 && p != 0.0
    ensures Sq(-w * s) + Sq(w * (e + c)) == 2.0 * (MU / r) - MU / a
  {
    var w2, m := w * w, 1.0 - e * e;
    SpeedSquared(w, e, c, s, w2, 2.0 * q - m);
    assert w2 * (h * h) == MU * MU;
    assert (w2 * p) * MU == MU * MU;
    CancelRadius(w2 * p, MU, MU);
    Quotient(w2 * q, MU, r, w2 * p);
    Quotient(w2 * m, MU, a, w2 * p);
    assert w2 * (2.0 * q - m) == 2.0 * (w2 * q) - w2 * m;
  }

  lemma SpeedSquared(w: real, e: real, c: real, s: real, w2: real, k: real)
    requires Angle(c, s) && w2 == w * w && k == 2.0 * (1.0 + e * c) - (1.0 - e * e)
    ensures Sq(-w * s) + Sq(w * (e + c)) == w2 * k
  {
    assert Sq(-w * s) == w2 * Sq(s) && Sq(w * (e + c)) == w2 * Sq(e + c);
    assert Sq(s) + Sq(e + c) == (Sq(c) + Sq(s)) + e * e + 2.0 * (e * c);
    assert w2 * Sq(s) + w2 * Sq(e + c) == w2 * (Sq(s) + Sq(e + c));
  }

  lemma Quotient(x: real, y: real, k: real, xk: real)
    requires k != 0.0 && xk == y && x * k == xk
    ensures x == y / k
  {
    CancelRadius(x, y / k, k);
  }

  /** Every angle of the orbit is given by a cosine and a sine. */
  predicate Oriented(o: Orbit) {
    Angle(o.ci, o.si) && Angle(o.cr, o.sr) && Angle(o.cw, o.sw)
  }

  /** The unit normal of the orbital plane, from inclination and node. */
  function Normal(o: Orbit): V3 { V3(o.sr * o.si, -(o.cr * o.si), o.ci) }

  /** The plane keeps lengths, its normal is inclined and turned as the elements say, and the point at the
      argument of perigee before perigee is the ascending node. */
  lemma InPlaneIsTheOrbitalPlane(o: Orbit, x: real, y: real)
    requires Oriented(o)
    ensures Norm2(InPlane(o, x, y)) == Sq(x) + Sq(y)
    ensures Dot(InPlane(o, x, y), Normal(o)) == 0.0 && Norm2(Normal(o)) == 1.0
    ensures InPlane(o, o.cw, -o.sw) == V3(o.cr, o.sr, 0.0)
    ensures InPlane(o, o.sw, o.cw) == V3(-(o.ci * o.sr), o.ci * o.cr, o.si)
  {
    InPlaneKeepsLength(o, x, y);
    NodeIsOnTheEquator(o);
    InPlaneByNode(o, x, y);
    NormalIsUnit(o);
    NormalIsAcross(o, Along(o.cw, o.sw, x, y), Across(o.cw, o.sw, x, y));
  }

  lemma NormalIsUnit(o: Orbit)
    requires Oriented(o)
    ensures Norm2(Normal(o)) == 1.0
  {
    TurnedSquare(o.sr, o.cr, o.si);
    SquaredLength(o.sr * o.si, -(o.cr * o.si), o.ci);
    assert Sq(-(o.cr * o.si)) == Sq(o.cr * o.si);
  }

  lemma InPlaneKeepsLength(o: Orbit, x: real, y: real)
    requires Oriented(o)
    ensures Norm2(InPlane(o, x, y)) == Sq(x) + Sq(y)
  {
    InPlaneByNode(o, x, y);
    NodeLength(o.cr, o.sr, o.ci, o.si, Along(o.cw, o.sw, x, y), Across(o.cw, o.sw, x, y));
    TurnedLength(o.cw, o.sw, x, y);
  }

  lemma NodeLength(cr: real, sr: real, ci: real, si: real, a: real, c: real)
    requires Angle(cr, sr) && Angle(ci, si)
    ensures Norm2(ByNode(cr, sr, ci, si, a, c)) == Sq(a) + Sq(c)
  {
    TurnedLength(cr, sr, a, ci * c);
    TurnedSquare(ci, si, c);
    SquaredLength(Along(cr, sr, a, ci * c), Across(cr, sr, a, ci * c), si * c);
  }

  lemma SquaredLength(x: real, y: real, z: real)
    ensures Norm2(V3(x, y, z)) == Sq(x) + Sq(y) + Sq(z)
  {}

  lemma NodeIsOnTheEquator(o: Orbit)
    requires Oriented(o)
    ensures InPlane(o, o.cw, -o.sw) == V3(o.cr, o.sr, 0.0)
    ensures InPlane(o, o.sw, o.cw) == V3(-(o.ci * o.sr), o.ci * o.cr, o.si)
  {
    InPlaneByNode(o, o.cw, -o.sw);
    InPlaneByNode(o, o.sw, o.cw);
    assert o.cw * o.cw - o.sw * (-o.sw) == Sq(o.cw) + Sq(o.sw) && o.sw * o.cw + o.cw * (-o.sw) == 0.0;
    assert o.cw * o.sw - o.sw * o.cw == 0.0 && o.sw * o.sw + o.cw * o.cw == Sq(o.cw) + Sq(o.sw);
  }

  lemma TurnedLength(c: real, s: real, x: real, y: real)
    requires Angle(c, s)
    ensures Sq(Along(c, s, x, y)) + Sq(Across(c, s, x, y)) == Sq(x) + Sq(y)
  {
    TurnedSquares(c, s, x, y, Sq(c), Sq(s), Sq(x), Sq(y));
    OneTimes(Sq(c), Sq(s), Sq(x));
    OneTimes(Sq(s), Sq(c), Sq(y));
  }

  lemma TurnedSquares(c: real, s: real, x: real, y: real, cc: real, ss: real, xx: real, yy: real)
    requires cc == c * c && ss == s * s && xx == x * x && yy == y * y
    ensures Sq(c * x - s * y) + Sq(s * x + c * y) == Times(cc, xx) + Times(ss, xx) + Times(ss, yy) + Times(cc, yy)
  {
    var m := (c * s) * (x * y);
    assert Sq(c * x - s * y) == cc * xx - 2.0 * m + ss * yy;
    assert Sq(s * x + c * y) == ss * xx + 2.0 * m + cc * yy;
  }

  lemma OneTimes(p: real, q: real, x: real)
    requires p + q == 1.0
    ensures Times(p, x) + Times(q, x) == x
  {}

  lemma TurnedSquare(c: real, s: real, x: real)
    requires Angle(c, s)
    ensures Sq(c * x) + Sq(s * x) == Sq(x)
  {
    assert Sq(c * x) + Sq(s * x) == (Sq(c) + Sq(s)) * Sq(x);
  }

  lemma NormalIsAcross(o: Orbit, a: real, c: real)
    requires Angle(o.cr, o.sr)
    ensures Dot(ByNode(o.cr, o.sr, o.ci, o.si, a, c), Normal(o)) == 0.0
  {
    var b := o.ci * c;
    assert (o.cr * a - o.sr * b) * (o.sr * o.si) - (o.sr * a + o.cr * b) * (o.cr * o.si) ==
           -((Sq(o.cr) + Sq(o.sr)) * (o.si * b));
    assert o.si * b == (o.si * c) * o.ci;
  }

  /** The state of an orbit: its distance, its speed and its plane are those of its elements. */
  lemma ToEciIsTheOrbit(sqrt: Sqrt, o: Orbit)
    requires IsRoot(sqrt) && Oriented(o) && Angle(o.cn, o.sn) && ToEci(sqrt, o).Some?
    ensures var s := ToEci(sqrt, o).value;
      var r := Parameter(o.a, o.e) / Openness(o.e, o.cn);
      && o.a != 0.0 && r != 0.0
      && Norm2(s.p) == Sq(r) && Norm2(s.v) == 2.0 * (MU / r) - MU / o.a
      && Dot(s.p, Normal(o)) == 0.0 && Dot(s.v, Normal(o)) == 0.0
  {
    PerifocalIsTheConic(sqrt, o.a, o.e, o.cn, o.sn);
    var (x, y, vx, vy) := Perifocal(sqrt, o.a, o.e, o.cn, o.sn).value;
    InPlaneIsTheOrbitalPlane(o, x, y);
    InPlaneIsTheOrbitalPlane(o, vx, vy);
  }

  /** The orbit with its node turned by the symmetry's angle and, for m = -1, its inclination negated. */
  function MoveOrbit(g: Symmetry, o: Orbit): Orbit {
    o.(cr := g.c * o.cr - g.s * o.sr, sr := g.s * o.cr + g.c * o.sr, si := g.m * o.si)
  }

  lemma InPlaneCommutes(g: Symmetry, o: Orbit, x: real, y: real)
    ensures InPlane(MoveOrbit(g, o), x, y) == g.Move(InPlane(o, x, y))
  {
    InPlaneByNode(o, x, y);
    InPlaneByNode(MoveOrbit(g, o), x, y);
    MoveByNode(g, o.cr, o.sr, o.ci, o.si, Along(o.cw, o.sw, x, y), Across(o.cw, o.sw, x, y));
  }

  lemma MoveByNode(g: Symmetry, cr: real, sr: real, ci: real, si: real, a: real, c: real)
    ensures ByNode(g.c * cr - g.s * sr, g.s * cr + g.c * sr, ci, g.m * si, a, c) == g.Move(ByNode(cr, sr, ci, si, a, c))
  {
    TurnNode(g.c, g.s, cr, sr, a, ci * c);
    assert (g.m * si) * c == g.m * (si * c);
  }

  function Along(cr: real, sr: real, a: real, b: real): real { cr * a - sr * b }

  function Across(cr: real, sr: real, a: real, b: real): real { sr * a + cr * b }

  /** The node enters linearly: a and b are the coordinates along and across it. */
  lemma InPlaneByNode(o: Orbit, x: real, y: real)
    ensures InPlane(o, x, y) == ByNode(o.cr, o.sr, o.ci, o.si, Along(o.cw, o.sw, x, y), Across(o.cw, o.sw, x, y))
  {
    var a, c := Along(o.cw, o.sw, x, y), Across(o.cw, o.sw, x, y);
    NodeTerms(o.cr, o.sr, o.cw, o.sw, o.ci, x, y, a, c);
    NodeTerms(o.sr, -o.cr, o.cw, o.sw, o.ci, x, y, a, c);
    assert (o.sw * o.si) * x + (o.cw * o.si) * y == o.si * c;
  }

  lemma NodeTerms(p: real, q: real, cw: real, sw: real, ci: real, x: real, y: real, a: real, c: real)
    requires a == cw * x - sw * y && c == sw * x + cw * y
    ensures (p * cw - q * sw * ci) * x + (-(p * sw) - q * cw * ci) * y == p * a - q * (ci * c)
  {
    assert p * a == p * cw * x - p * sw * y;
    assert q * (ci * c) == q * sw * ci * x + q * cw * ci * y;
  }

  /** The point with coordinates a towards and c beyond the node in the orbital plane. */
  function ByNode(cr: real, sr: real, ci: real, si: real, a: real, c: real): V3 {
    V3(Along(cr, sr, a, ci * c), Across(cr, sr, a, ci * c), si * c)
  }

  lemma TurnNode(c: real, s: real, cr: real, sr: real, a: real, b: real)
    ensures Along(c * cr - s * sr, s * cr + c * sr, a, b) == c * Along(cr, sr, a, b) - s * Across(cr, sr, a, b)
    ensures Across(c * cr - s * sr, s * cr + c * sr, a, b) == s * Along(cr, sr, a, b) + c * Across(cr, sr, a, b)
  {}

  /** Turning the node of an orbit, or mirroring its inclination, moves its state by the same symmetry. */
  lemma ToEciCommutes(sqrt: Sqrt, g: Symmetry, o: Orbit)
    ensures ToEci(sqrt, MoveOrbit(g, o)) ==
            if ToEci(sqrt, o).None? then None else Some(g.MoveState(ToEci(sqrt, o).value))
  {
    var c := Perifocal(sqrt, o.a, o.e, o.cn, o.sn);
    if c.Some? {
      InPlaneCommutes(g, o, c.value.0, c.value.1);
      InPlaneCommutes(g, o, c.value.2, c.value.3);
    }
  }
}
