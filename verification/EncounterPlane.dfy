/** Encounter-plane algebra: RTN frames, combined covariance, projection onto the plane perpendicular to
    the relative velocity, and the Mahalanobis miss.  Square roots enter through `IsRoot` only. */
module EncounterPlane {
  import opened Prelude
  import opened Vectors
  import opened Matrices

  type Sqrt = real -> real

  function Div(v: V3, k: real): V3
    requires k != 0.0
  {
    V3(v.x / k, v.y / k, v.z / k)
  }

  function Norm(sqrt: Sqrt, v: V3): real { sqrt(Norm2(v)) }

  predicate Unit(v: V3) { Norm2(v) == 1.0 }

  /** Two unit vectors of the plane perpendicular to d, at right angles. */
  predicate PlaneBasis(d: V3, f1: V3, f2: V3) {
    Unit(d) && Unit(f1) && Unit(f2) && Dot(d, f1) == 0.0 && Dot(d, f2) == 0.0 && Dot(f1, f2) == 0.0
  }

  predicate Orthonormal(m: M3) {
    PlaneBasis(m.r1, m.r2, m.r3)
  }

  lemma NormZero(sqrt: Sqrt, v: V3)
    requires IsRoot(sqrt)
    ensures Norm(sqrt, v) >= 0.0 && (Norm(sqrt, v) == 0.0 <==> v == ZERO)
  {
    NormPositive(v);
    RootFacts(sqrt, Norm2(v));
  }

  lemma RootFacts(sqrt: Sqrt, q: real)
    requires IsRoot(sqrt) && q >= 0.0
    ensures sqrt(q) >= 0.0 && (sqrt(q) == 0.0 <==> q == 0.0)
  {
    RootZero(sqrt(q), q);
  }

  lemma RootZero(n: real, q: real)
    requires Sq(n) == q
    ensures n == 0.0 <==> q == 0.0
  {
    if n != 0.0 {
      SquarePositive(n);
    }
  }

  lemma DivScales(v: V3, k: real)
    requires k != 0.0
    ensures Scale(k, Div(v, k)) == v
  {}

  lemma ScaleNorm(k: real, v: V3)
    ensures Norm2(Scale(k, v)) == Sq(k) * Norm2(v)
  {}

  lemma ScaleDot(k: real, a: V3, b: V3)
    ensures Dot(Scale(k, a), b) == k * Dot(a, b) && Dot(b, Scale(k, a)) == k * Dot(b, a)
  {}

  lemma DivIsUnit(sqrt: Sqrt, v: V3)
    requires IsRoot(sqrt) && Norm(sqrt, v) != 0.0
    ensures Unit(Div(v, Norm(sqrt, v)))
  {
    var n := Norm(sqrt, v);
    NormPositive(v);
    DivScales(v, n);
    ScaleNorm(n, Div(v, n));
    SquarePositive(n);
    assert Sq(sqrt(Norm2(v))) == Norm2(v);
    CancelFactor(Sq(n), Norm2(Div(v, n)), Norm2(v));
  }

  lemma CancelFactor(k: real, x: real, y: real)
    requires k > 0.0 && y == k * x && y == k
    ensures x == 1.0
  {
    assert k * (x - 1.0) == 0.0;
    if x - 1.0 > 0.0 {
      ProductPositive(k, x - 1.0, k * (x - 1.0));
    } else if x - 1.0 < 0.0 {
      ProductPositive(k, 1.0 - x, k * (1.0 - x));
    }
  }

  // ---------- RTN frames ----------

  function Eci2Rtn(sqrt: Sqrt, r: V3, v: V3): Option<M3> {
    var h := Cross(r, v);
    var nr, nh := Norm(sqrt, r), Norm(sqrt, h);
    if nr == 0.0 || nh == 0.0 then None
    else
      var R, W := Div(r, nr), Div(h, nh);
      Some(M3(R, Cross(W, R), W))
  }

  lemma CrossIsBasis(a: V3, b: V3)
    requires Unit(a) && Unit(b) && Dot(a, b) == 0.0
    ensures PlaneBasis(a, b, Cross(a, b))
  {
    Lagrange(a, b);
    CrossOrthogonal(a, b);
    DotSymmetric(Cross(a, b), a);
    DotSymmetric(Cross(a, b), b);
  }

  lemma PlaneBasisRotates(a: V3, b: V3, c: V3)
    requires PlaneBasis(a, b, c)
    ensures PlaneBasis(b, c, a) && PlaneBasis(b, a, c)
  {
    DotSymmetric(a, b);
    DotSymmetric(a, c);
    DotSymmetric(b, c);
  }

  /** The rows R, T, W of every frame are orthonormal, and a frame exists exactly when position and
      velocity are not collinear. */
  lemma RtnIsOrthonormal(sqrt: Sqrt, r: V3, v: V3)
    requires IsRoot(sqrt)
    ensures Eci2Rtn(sqrt, r, v).Some? <==> Cross(r, v) != ZERO
    ensures Eci2Rtn(sqrt, r, v).Some? ==> Orthonormal(Eci2Rtn(sqrt, r, v).value)
  {
    var h := Cross(r, v);
    var nr, nh := Norm(sqrt, r), Norm(sqrt, h);
    NormZero(sqrt, r);
    NormZero(sqrt, h);
    if nr != 0.0 && nh != 0.0 {
      var R, W := Div(r, nr), Div(h, nh);
      DivIsUnit(sqrt, r);
      DivIsUnit(sqrt, h);
      CrossOrthogonal(r, v);
      DivScales(r, nr);
      DivScales(h, nh);
      ScaleDot(nh, W, r);
      ScaleDot(nr, R, W);
      NonzeroFactor(nh, Dot(W, r));
      NonzeroFactor(nr, Dot(W, R));
      CrossIsBasis(W, R);
      PlaneBasisRotates(W, R, Cross(W, R));
      PlaneBasisRotates(R, Cross(W, R), W);
    }
  }

  lemma NonzeroFactor(k: real, x: real)
    requires k != 0.0 && k * x == 0.0
    ensures x == 0.0
  {}

  /** What the rows are: R points along the position, the velocity has no part along W and a positive one along
      T.  Together with orthonormality this fixes all three. */
  lemma FrameFollowsState(sqrt: Sqrt, r: V3, v: V3)
    requires IsRoot(sqrt) && Eci2Rtn(sqrt, r, v).Some?
    ensures var m := Eci2Rtn(sqrt, r, v).value;
      Mul(m, r) == V3(Norm(sqrt, r), 0.0, 0.0) && Mul(m, v).z == 0.0 && Mul(m, v).y > 0.0
  {
    var h := Cross(r, v);
    var nr, nh := Norm(sqrt, r), Norm(sqrt, h);
    var R, W := Div(r, nr), Div(h, nh);
    NormZero(sqrt, r);
    NormZero(sqrt, h);
    DivIsUnit(sqrt, r);
    DivIsUnit(sqrt, h);
    DivScales(r, nr);
    DivScales(h, nh);
    RadialRow(r, R, nr);
    CrossOrthogonal(r, v);
    ScaleDot(nh, W, r);
    ScaleDot(nh, W, v);
    NonzeroFactor(nh, Dot(W, r));
    NonzeroFactor(nh, Dot(W, v));
    CrossOrthogonal(W, R);
    ScaleDot(nr, R, Cross(W, R));
    AlongTrackRow(r, v, R, W, nr, nh);
  }

  lemma RadialRow(r: V3, R: V3, n: real)
    requires Scale(n, R) == r && Unit(R)
    ensures Dot(R, r) == n
  {
    ScaleDot(n, R, R);
  }

  lemma AlongTrackRow(r: V3, v: V3, R: V3, W: V3, nr: real, nh: real)
    requires Scale(nr, R) == r && Scale(nh, W) == Cross(r, v) && Unit(W) && nr > 0.0 && nh > 0.0
    ensures Dot(Cross(W, R), v) > 0.0
  {
    CrossScales(nr, R, v);
    assert Scale(nh, W) == Scale(nr, Cross(R, v));
    ScaleDot(nh, W, W);
    ScaleDot(nr, Cross(R, v), W);
    TripleTurns(W, R, v);
    PositivePart(nr, Dot(W, Cross(R, v)), nh);
  }

  lemma CrossScales(k: real, a: V3, b: V3)
    ensures Cross(Scale(k, a), b) == Scale(k, Cross(a, b))
  {
    var s, u := Scale(k, a), Cross(a, b);
    ScaledMinor(k, b.z, a.y, s.y, b.y, a.z, s.z, u.x);
    ScaledMinor(k, b.x, a.z, s.z, b.z, a.x, s.x, u.y);
    ScaledMinor(k, b.y, a.x, s.x, b.x, a.y, s.y, u.z);
  }

  lemma ScaledMinor(k: real, p: real, q: real, kq: real, r: real, s: real, ks: real, minor: real)
    requires kq == k * q && ks == k * s && minor == p * q - r * s
    ensures p * kq - r * ks == k * minor
  {
    assert p * (k * q) == k * (p * q);
    assert r * (k * s) == k * (r * s);
  }

  lemma TripleTurns(a: V3, b: V3, c: V3)
    ensures Dot(Cross(a, b), c) == Dot(a, Cross(b, c))
  {
    var u, w := Cross(a, b), Cross(b, c);
    Triple(a, b, c, u, w);
  }

  lemma Triple(a: V3, b: V3, c: V3, u: V3, w: V3)
    requires u.x == a.y * b.z - a.z * b.y && u.y == a.z * b.x - a.x * b.z && u.z == a.x * b.y - a.y * b.x
    requires w.x == b.y * c.z - b.z * c.y && w.y == b.z * c.x - b.x * c.z && w.z == b.x * c.y - b.y * c.x
    ensures Dot(u, c) == Dot(a, w)
  {
    TriplePart(a.y, b.z, a.z, b.y, c.x);
    TriplePart(a.z, b.x, a.x, b.z, c.y);
    TriplePart(a.x, b.y, a.y, b.x, c.z);
    TriplePart(b.y, c.z, b.z, c.y, a.x);
    TriplePart(b.z, c.x, b.x, c.z, a.y);
    TriplePart(b.x, c.y, b.y, c.x, a.z);
  }

  lemma TriplePart(p: real, q: real, r: real, s: real, k: real)
    ensures (p * q - r * s) * k == p * q * k - r * s * k && k * (p * q - r * s) == p * q * k - r * s * k
  {}

  lemma PositivePart(k: real, x: real, y: real)
    requires k > 0.0 && k * x == y && y > 0.0
    ensures x > 0.0
  {
    if x <= 0.0 {
      NotPositive(x, k);
    }
  }

  function RowOf(m: M3, i: nat): V3 { if i == 0 then m.r1 else if i == 1 then m.r2 else m.r3 }

  function Component(v: V3, i: nat): real { if i == 0 then v.x else if i == 1 then v.y else v.z }

  function Axis(i: nat): V3 {
    V3(if i == 0 then 1.0 else 0.0, if i == 1 then 1.0 else 0.0, if i >= 2 then 1.0 else 0.0)
  }

  /** In the frame's own axes the rotated covariance has the entries given: variances and covariances stay with
      their axes. */
  lemma RotatedEntries(m: M3, c: M3, i: nat, j: nat)
    requires Orthonormal(m) && i < 3 && j < 3
    ensures Form(Sandwich(m, c), RowOf(m, i), RowOf(m, j)) == Component(RowOf(c, i), j)
  {
    RowIsAxis(m, i);
    RowIsAxis(m, j);
    SandwichForm(m, c, RowOf(m, i), RowOf(m, j));
    FormOfAxes(c, i, j);
  }

  lemma RowIsAxis(m: M3, i: nat)
    requires Orthonormal(m) && i < 3
    ensures Mul(m, RowOf(m, i)) == Axis(i)
  {
    DotSymmetric(m.r1, m.r2);
    DotSymmetric(m.r1, m.r3);
    DotSymmetric(m.r2, m.r3);
  }

  lemma FormOfAxes(c: M3, i: nat, j: nat)
    requires i < 3 && j < 3
    ensures Form(c, Axis(i), Axis(j)) == Component(RowOf(c, i), j)
  {}

  /** End to end: along each axis of the first body's frame the combined covariance has that body's variance, plus
      what the second body contributes there. */
  lemma CombinedEntries(m1: M3, c1: M3, m2: M3, c2: M3, i: nat)
    requires Orthonormal(m1) && i < 3
    ensures var axis := RowOf(m1, i);
      Quad(Combined(m1, c1, m2, c2), axis) == Component(RowOf(c1, i), i) + Quad(c2, Mul(m2, axis))
  {
    var axis := RowOf(m1, i);
    AddForm(Sandwich(m1, c1), Sandwich(m2, c2), axis, axis);
    RotatedEntries(m1, c1, i, i);
    SandwichForm(m2, c2, axis, axis);
  }

  // ---------- Projection ----------

  /** The combined inertial covariance of the two objects. */
  function Combined(m1: M3, c1: M3, m2: M3, c2: M3): M3 {
    AddM(Sandwich(m1, c1), Sandwich(m2, c2))
  }

  datatype M2 = M2(a: real, b: real, c: real, d: real)

  /** A covariance and a miss vector in in-plane coordinates. */
  datatype Projection = Projection(cov: M2, x: real, y: real)

  function Project(c: M3, dr: V3, f1: V3, f2: V3): Projection {
    Projection(M2(Form(c, f1, f1), Form(c, f1, f2), Form(c, f2, f1), Form(c, f2, f2)), Dot(f1, dr), Dot(f2, dr))
  }

  /** The helper axis: x, or y when the direction is close to x. */
  function Helper(d: V3): V3 {
    if -0.9 < d.x < 0.9 then V3(1.0, 0.0, 0.0) else V3(0.0, 1.0, 0.0)
  }

  function InPlanePart(a: V3, d: V3): V3 {
    Sub(a, Scale(Dot(a, d), d))
  }

  datatype Body = Body(r: V3, v: V3, cov: M3)

  function ProjectToBplane(sqrt: Sqrt, p: Body, q: Body): Option<Projection> {
    var m1, m2 := Eci2Rtn(sqrt, p.r, p.v), Eci2Rtn(sqrt, q.r, q.v);
    if m1.None? || m2.None? then None
    else
      var c := Combined(m1.value, p.cov, m2.value, q.cov);
      var dr, dv := Scale(1000.0, Sub(q.r, p.r)), Sub(q.v, p.v);
      var ndv := Norm(sqrt, dv);
      if ndv == 0.0 then None
      else
        var d := Div(dv, ndv);
        var e := InPlanePart(Helper(d), d);
        var n1 := Norm(sqrt, e);
        if n1 == 0.0 then None
        else
          var e1 := Div(e, n1);
          Some(Project(c, dr, e1, Cross(d, e1)))
  }

  lemma InPlaneNorm(a: V3, d: V3)
    requires Unit(d) && Unit(a)
    ensures Norm2(InPlanePart(a, d)) == 1.0 - Sq(Dot(a, d)) && Dot(d, InPlanePart(a, d)) == 0.0
  {
    var k, e := Dot(a, d), InPlanePart(a, d);
    SubDot(d, a, Scale(k, d));
    ScaleDot(k, d, d);
    DotSymmetric(a, d);
    SubDot(e, a, Scale(k, d));
    ScaleDot(k, d, e);
    DotSymmetric(e, a);
    DotSymmetric(e, d);
    SubDot(a, a, Scale(k, d));
    ScaleDot(k, d, a);
    assert Dot(e, Scale(k, d)) == k * Dot(e, d);
    assert Dot(a, Scale(k, d)) == k * k;
  }

  lemma SubDot(x: V3, a: V3, b: V3)
    ensures Dot(x, Sub(a, b)) == Dot(x, a) - Dot(x, b)
  {}

  /** The helper axis always keeps at least 0.19 of its squared length in the plane, so the branch for a
      vanishing in-plane part is never taken. */
  lemma HelperNeverVanishes(sqrt: Sqrt, d: V3)
    requires IsRoot(sqrt) && Unit(d)
    ensures Norm2(InPlanePart(Helper(d), d)) >= 0.19
    ensures Norm(sqrt, InPlanePart(Helper(d), d)) != 0.0
  {
    InPlaneNorm(Helper(d), d);
    HelperShare(d);
    var e := InPlanePart(Helper(d), d);
    NormPositive(e);
    RootFacts(sqrt, Norm2(e));
  }

  /** At most 0.81 of the helper axis lies along the direction. */
  lemma HelperShare(d: V3)
    requires Unit(d)
    ensures Sq(Dot(Helper(d), d)) <= 0.81
  {
    assert Sq(d.x) + Sq(d.y) + Sq(d.z) == 1.0;
    assert Sq(d.y) >= 0.0 && Sq(d.z) >= 0.0;
    if -0.9 < d.x < 0.9 {
      assert Dot(Helper(d), d) == d.x;
      SquareBelow(d.x);
    } else {
      assert Dot(Helper(d), d) == d.y;
      SquareAbove(d.x);
    }
  }

  lemma SquareBelow(x: real)
    requires -0.9 < x < 0.9
    ensures Sq(x) <= 0.81
  {
    ProductPositive(0.9 - x, 0.9 + x, 0.81 - Sq(x));
  }

  lemma SquareAbove(x: real)
    requires x <= -0.9 || 0.9 <= x
    ensures Sq(x) >= 0.81
  {
    if x < -0.9 {
      ProductPositive(-x - 0.9, -x + 0.9, Sq(x) - 0.81);
    } else if x > 0.9 {
      ProductPositive(x - 0.9, x + 0.9, Sq(x) - 0.81);
    }
  }

  /** The in-plane axes the program builds are an orthonormal basis of the plane. */
  lemma AxesAreBasis(sqrt: Sqrt, d: V3)
    requires IsRoot(sqrt) && Unit(d)
    requires Norm(sqrt, InPlanePart(Helper(d), d)) != 0.0
    ensures var e := InPlanePart(Helper(d), d);
      var e1 := Div(e, Norm(sqrt, e));
      PlaneBasis(d, e1, Cross(d, e1))
  {
    var e := InPlanePart(Helper(d), d);
    var n := Norm(sqrt, e);
    var e1 := Div(e, n);
    InPlaneNorm(Helper(d), d);
    DivIsUnit(sqrt, e);
    DivScales(e, n);
    ScaleDot(n, e1, d);
    NonzeroFactor(n, Dot(d, e1));
    CrossIsBasis(d, e1);
  }

  // ---------- The Mahalanobis miss ----------

  function Det(c: M2): real { c.a * c.d - c.b * c.c }

  /** d . (C^-1 d) times the determinant. */
  function Numerator(p: Projection): real {
    p.x * (p.cov.d * p.x - p.cov.b * p.y) + p.y * (p.cov.a * p.y - p.cov.c * p.x)
  }

  /** d . solve(C, d); None when C is singular. */
  function Solved(p: Projection): Option<real> {
    if Det(p.cov) == 0.0 then None
    else
      var (u, w) := Solution(p.cov, p.x, p.y);
      Some(Along(p.x, p.y, u, w))
  }

  function Solution(c: M2, x: real, y: real): (real, real)
    requires Det(c) != 0.0
  {
    ((c.d * x - c.b * y) / Det(c), (c.a * y - c.c * x) / Det(c))
  }

  function Along(x: real, y: real, u: real, w: real): real { x * u + y * w }

  function Root(sqrt: Sqrt, val: Option<real>): Option<real> {
    if val.Some? && val.value > 0.0 then Some(sqrt(val.value)) else None
  }

  function BplaneMahalanobis(sqrt: Sqrt, p: Body, q: Body): Option<real> {
    var proj := ProjectToBplane(sqrt, p, q);
    if proj.None? then None else Root(sqrt, Solved(proj.value))
  }

  function Ratio(num: real, det: real): Option<real> {
    if det == 0.0 then None else Some(num / det)
  }

  lemma SolvedIsRatio(p: Projection)
    ensures Solved(p) == Ratio(Numerator(p), Det(p.cov))
  {
    var det, u, w := Det(p.cov), p.cov.d * p.x - p.cov.b * p.y, p.cov.a * p.y - p.cov.c * p.x;
    if det != 0.0 {
      SumOfQuotients(p.x, u, p.y, w, det, Numerator(p), Solved(p).value);
    }
  }

  lemma SumOfQuotients(x: real, u: real, y: real, w: real, det: real, num: real, total: real)
    requires det != 0.0 && num == x * u + y * w && total == x * (u / det) + y * (w / det)
    ensures Ratio(num, det) == Some(total)
  {
    var a, b := u / det, w / det;
    assert u == a * det && w == b * det;
    assert num == (x * a + y * b) * det;
    assert num / det == total;
  }

  lemma PlaneNormal(d: V3, f1: V3, f2: V3)
    requires PlaneBasis(d, f1, f2)
    ensures Cross(f1, f2) == d || Cross(f1, f2) == Scale(-1.0, d)
  {
    var t := Cross(f1, f2);
    var k := Dot(d, t);
    Lagrange(f1, f2);
    assert Sq(Dot(f1, f2)) == 0.0;
    TripleProduct(d, f1, f2);
    assert Cross(d, t) == ZERO;
    TripleProduct(d, d, t);
    assert Cross(d, ZERO) == ZERO;
    assert t == Scale(k, d);
    ScaleNorm(k, d);
    assert Sq(k) == 1.0;
    UnitSquare(k);
  }

  lemma UnitSquare(k: real)
    requires Sq(k) == 1.0
    ensures k == 1.0 || k == -1.0
  {
    assert (k - 1.0) * (k + 1.0) == Sq(k) - 1.0;
    if k != 1.0 {
      NonzeroFactor(k - 1.0, k + 1.0);
    }
  }

  /** The determinant of the projected covariance is its cofactor form on the normal. */
  lemma DetIsCofactorForm(c: M3, d: V3, f1: V3, f2: V3)
    requires PlaneBasis(d, f1, f2)
    ensures Det(Project(c, ZERO, f1, f2).cov) == Quad(Cofactors(c), d)
  {
    var t := Cross(f1, f2);
    PlaneNormal(d, f1, f2);
    BinetCauchy(f1, f2, Mul(c, f1), Mul(c, f2));
    CrossOfImages(c, f1, f2);
    assert Det(Project(c, ZERO, f1, f2).cov) == Quad(Cofactors(c), t);
    FormOfOpposite(Cofactors(c), d);
  }

  lemma FormOfOpposite(c: M3, d: V3)
    ensures Quad(c, Scale(-1.0, d)) == Quad(c, d)
  {
    assert Mul(c, Scale(-1.0, d)) == Scale(-1.0, Mul(c, d)) by {
      ScaleDot(-1.0, d, c.r1);
      ScaleDot(-1.0, d, c.r2);
      ScaleDot(-1.0, d, c.r3);
    }
    ScaleDot(-1.0, d, Mul(c, Scale(-1.0, d)));
    ScaleDot(-1.0, Mul(c, d), d);
  }

  /** The numerator is the covariance form on the miss turned by a right angle in the plane. */
  lemma NumeratorIsTurnedForm(c: M3, dr: V3, d: V3, f1: V3, f2: V3)
    requires PlaneBasis(d, f1, f2)
    ensures Numerator(Project(c, dr, f1, f2)) == Quad(c, Cross(d, dr))
  {
    var x, y := Dot(f1, dr), Dot(f2, dr);
    var w := Comb(x, f2, -y, f1);
    QuadOfComb(c, x, f2, -y, f1);
    TurnedMiss(dr, f1, f2);
    PlaneNormal(d, f1, f2);
    if Cross(f1, f2) != d {
      assert Cross(Scale(-1.0, d), dr) == Scale(-1.0, Cross(d, dr));
      FormOfOpposite(c, Cross(d, dr));
    }
    NumeratorAlgebra(Project(c, dr, f1, f2));
  }

  lemma NumeratorAlgebra(p: Projection)
    ensures Numerator(p) == QuadPoly(p.x, -p.y, p.cov.d, p.cov.c, p.cov.b, p.cov.a)
  {}

  lemma TurnedMiss(dr: V3, f1: V3, f2: V3)
    ensures Comb(Dot(f1, dr), f2, -Dot(f2, dr), f1) == Cross(Cross(f1, f2), dr)
  {
    TripleProduct(dr, f1, f2);
    DotSymmetric(dr, f1);
    DotSymmetric(dr, f2);
    CrossSwaps(Cross(f1, f2), dr);
  }

  lemma CrossSwaps(a: V3, b: V3)
    ensures Cross(a, b) == Scale(-1.0, Cross(b, a))
  {}

  function QuadPoly(p: real, q: real, xx: real, xy: real, yx: real, yy: real): real {
    p * p * xx + p * q * (xy + yx) + q * q * yy
  }

  lemma QuadOfComb(c: M3, p: real, x: V3, q: real, y: V3)
    ensures Quad(c, Comb(p, x, q, y)) == QuadPoly(p, q, Form(c, x, x), Form(c, x, y), Form(c, y, x), Form(c, y, y))
  {
    var w, u, v := Comb(p, x, q, y), Mul(c, x), Mul(c, y);
    MulComb(c, p, x, q, y);
    DotComb(x, p, u, q, v);
    DotComb(y, p, u, q, v);
    CombDot(p, x, q, y, Mul(c, w));
    QuadAlgebra(p, q, Dot(x, u), Dot(x, v), Dot(y, u), Dot(y, v), Dot(x, Mul(c, w)), Dot(y, Mul(c, w)), Quad(c, w));
  }

  lemma MulComb(c: M3, p: real, x: V3, q: real, y: V3)
    ensures Mul(c, Comb(p, x, q, y)) == Comb(p, Mul(c, x), q, Mul(c, y))
  {
    DotComb(c.r1, p, x, q, y);
    DotComb(c.r2, p, x, q, y);
    DotComb(c.r3, p, x, q, y);
  }

  lemma CombDot(p: real, x: V3, q: real, y: V3, a: V3)
    ensures Dot(Comb(p, x, q, y), a) == p * Dot(x, a) + q * Dot(y, a)
  {
    DotSymmetric(Comb(p, x, q, y), a);
    DotComb(a, p, x, q, y);
    DotSymmetric(x, a);
    DotSymmetric(y, a);
  }

  lemma QuadAlgebra(p: real, q: real, xx: real, xy: real, yx: real, yy: real, u: real, v: real, total: real)
    requires u == p * xx + q * xy && v == p * yx + q * yy && total == p * u + q * v
    ensures total == QuadPoly(p, q, xx, xy, yx, yy)
  {
    assert p * u == p * (p * xx) + p * (q * xy);
    assert q * v == q * (p * yx) + q * (q * yy);
  }

  lemma DotComb(a: V3, p: real, x: V3, q: real, y: V3)
    ensures Dot(a, Comb(p, x, q, y)) == p * Dot(a, x) + q * Dot(a, y)
  {
    assert a.x * (p * x.x + q * y.x) == p * (a.x * x.x) + q * (a.x * y.x);
    assert a.y * (p * x.y + q * y.y) == p * (a.y * x.y) + q * (a.y * y.y);
    assert a.z * (p * x.z + q * y.z) == p * (a.z * x.z) + q * (a.z * y.z);
  }

  /** The value under the root solves the system the program sets up: it is the miss times the solution u of
      C u = miss. */
  lemma SolvedSolves(p: Projection) returns (u: real, w: real)
    ensures Det(p.cov) != 0.0 ==>
      && p.cov.a * u + p.cov.b * w == p.x && p.cov.c * u + p.cov.d * w == p.y
      && Solved(p) == Some(Along(p.x, p.y, u, w))
  {
    u, w := 0.0, 0.0;
    if Det(p.cov) != 0.0 {
      var solution := Solution(p.cov, p.x, p.y);
      u, w := solution.0, solution.1;
      Cramer(p.cov, p.x, p.y);
    }
  }

  lemma Cramer(c: M2, x: real, y: real)
    requires Det(c) != 0.0
    ensures var (u, w) := Solution(c, x, y);
      c.a * u + c.b * w == x && c.c * u + c.d * w == y
  {
    var s, t, det := c.d * x - c.b * y, c.a * y - c.c * x, Det(c);
    var u, w := s / det, t / det;
    assert u * det == s && w * det == t;
    Eliminate(c.a, c.b, c.c, c.d, x, y, det);
    CramerRow(c.a, c.b, x, s, t, u, w, det);
    CramerRow(c.c, c.d, y, s, t, u, w, det);
  }

  lemma Eliminate(a: real, b: real, c: real, d: real, x: real, y: real, det: real)
    requires det == a * d - b * c
    ensures a * (d * x - b * y) + b * (a * y - c * x) == det * x
    ensures c * (d * x - b * y) + d * (a * y - c * x) == det * y
  {}

  lemma CramerRow(a: real, b: real, x: real, s: real, t: real, u: real, w: real, det: real)
    requires det != 0.0 && u * det == s && w * det == t && a * s + b * t == det * x
    ensures a * u + b * w == x
  {
    assert (a * u + b * w) * det == a * (u * det) + b * (w * det);
    NonzeroFactor(det, a * u + b * w - x);
  }

  /** What the shared function returns: the positive root of the miss times the solution of C u = miss. */
  lemma MahalanobisMeans(sqrt: Sqrt, p: Body, q: Body) returns (u: real, w: real)
    requires IsRoot(sqrt) && BplaneMahalanobis(sqrt, p, q).Some?
    ensures ProjectToBplane(sqrt, p, q).Some?
    ensures var proj, value := ProjectToBplane(sqrt, p, q).value, BplaneMahalanobis(sqrt, p, q).value;
      && proj.cov.a * u + proj.cov.b * w == proj.x && proj.cov.c * u + proj.cov.d * w == proj.y
      && value > 0.0 && Sq(value) == Along(proj.x, proj.y, u, w)
  {
    var proj := ProjectToBplane(sqrt, p, q).value;
    u, w := SolvedSolves(proj);
    RootFacts(sqrt, Solved(proj).value);
    assert Sq(sqrt(Solved(proj).value)) == Solved(proj).value;
  }

  // ---------- Main results ----------

  /** The in-plane geometry of two bodies: combined covariance, miss vector and unit relative velocity;
      None for a degenerate frame or equal velocities. */
  function Geometry(sqrt: Sqrt, p: Body, q: Body): Option<(M3, V3, V3)> {
    var m1, m2 := Eci2Rtn(sqrt, p.r, p.v), Eci2Rtn(sqrt, q.r, q.v);
    var dv := Sub(q.v, p.v);
    if m1.None? || m2.None? || Norm(sqrt, dv) == 0.0 then None
    else Some((Combined(m1.value, p.cov, m2.value, q.cov), Scale(1000.0, Sub(q.r, p.r)), Div(dv, Norm(sqrt, dv))))
  }

  /** The Mahalanobis miss without any choice of in-plane axes: the covariance form of the miss turned
      about the relative velocity d, over the cofactor form on d. */
  function AxisFree(sqrt: Sqrt, g: Option<(M3, V3, V3)>): Option<real> {
    if g.None? then None
    else
      var (c, dr, d) := g.value;
      Root(sqrt, Ratio(Quad(c, Cross(d, dr)), Quad(Cofactors(c), d)))
  }

  /** Any orthonormal axes of the encounter plane give the axis-free value. */
  lemma AnyAxesAgree(sqrt: Sqrt, c: M3, dr: V3, d: V3, f1: V3, f2: V3)
    requires PlaneBasis(d, f1, f2)
    ensures Root(sqrt, Solved(Project(c, dr, f1, f2))) == AxisFree(sqrt, Some((c, dr, d)))
  {
    SolvedIsRatio(Project(c, dr, f1, f2));
    NumeratorIsTurnedForm(c, dr, d, f1, f2);
    DetIsCofactorForm(c, d, f1, f2);
  }

  /** The program's projection uses one such basis whenever the geometry is not degenerate. */
  lemma ProjectionUsesABasis(sqrt: Sqrt, p: Body, q: Body) returns (f1: V3, f2: V3)
    requires IsRoot(sqrt)
    ensures var g := Geometry(sqrt, p, q);
      if g.None? then ProjectToBplane(sqrt, p, q) == None
      else PlaneBasis(g.value.2, f1, f2) && FollowsHelper(g.value.2, f1, f2)
           && ProjectToBplane(sqrt, p, q) == Some(Project(g.value.0, g.value.1, f1, f2))
  {
    f1, f2 := ZERO, ZERO;
    var dv := Sub(q.v, p.v);
    if Norm(sqrt, dv) != 0.0 {
      var d := Div(dv, Norm(sqrt, dv));
      DivIsUnit(sqrt, dv);
      HelperNeverVanishes(sqrt, d);
      AxesAreBasis(sqrt, d);
      var e := InPlanePart(Helper(d), d);
      f1 := Div(e, Norm(sqrt, e));
      f2 := Cross(d, f1);
      AxesFollowHelper(sqrt, d);
    }
  }

  /** The first axis points to the side of the helper axis, which the second is at right angles to, and with the
      direction they make a right-handed system; the helper is x for directions less than 0.9 along x, else y. */
  ghost predicate FollowsHelper(d: V3, f1: V3, f2: V3) {
    var helper := if Sq(d.x) < 0.81 then V3(1.0, 0.0, 0.0) else V3(0.0, 1.0, 0.0);
    Dot(f1, helper) > 0.0 && Dot(f2, helper) == 0.0 && f2 == Cross(d, f1)
  }

  lemma AxesFollowHelper(sqrt: Sqrt, d: V3)
    requires IsRoot(sqrt) && Unit(d) && Norm(sqrt, InPlanePart(Helper(d), d)) != 0.0
    ensures var e := InPlanePart(Helper(d), d);
      var e1 := Div(e, Norm(sqrt, e));
      FollowsHelper(d, e1, Cross(d, e1))
  {
    var a := Helper(d);
    var e := InPlanePart(a, d);
    var n := Norm(sqrt, e);
    var e1 := Div(e, n);
    HelperByDirection(d);
    InPlaneNorm(a, d);
    HelperNeverVanishes(sqrt, d);
    NormPositive(e);
    RootFacts(sqrt, Norm2(e));
    DivScales(e, n);
    InPlaneAlongHelper(a, d);
    ScaleDot(n, e1, a);
    PositivePart(n, Dot(e1, a), Dot(e, a));
    CrossScales(n, e1, d);
    TripleTurns(d, e1, a);
    SecondAxis(a, d, e1, n);
  }

  lemma HelperByDirection(d: V3)
    ensures Helper(d) == if Sq(d.x) < 0.81 then V3(1.0, 0.0, 0.0) else V3(0.0, 1.0, 0.0)
  {
    if -0.9 < d.x < 0.9 {
      ProductPositive(0.9 - d.x, 0.9 + d.x, 0.81 - Sq(d.x));
    } else {
      SquareAbove(d.x);
    }
  }

  lemma InPlaneAlongHelper(a: V3, d: V3)
    requires Unit(d) && Unit(a)
    ensures Dot(InPlanePart(a, d), a) == Norm2(InPlanePart(a, d))
  {
    var e, k := InPlanePart(a, d), Dot(a, d);
    InPlaneNorm(a, d);
    SubDot(e, a, Scale(k, d));
    ScaleDot(k, d, e);
    DotSymmetric(e, d);
    assert k * Dot(d, e) == 0.0;
  }

  /** The second axis is at right angles to the helper. */
  lemma SecondAxis(a: V3, d: V3, e1: V3, n: real)
    requires n != 0.0 && Scale(n, e1) == InPlanePart(a, d)
    ensures Dot(Cross(d, e1), a) == 0.0
  {
    var k := Dot(a, d);
    var s := Scale(k, d);
    CrossOfScaled(d, n, e1);
    ScaleDot(n, Cross(d, e1), a);
    CrossOfDifference(d, a, s);
    CrossOfScaled(d, k, d);
    CrossWithItself(d);
    CrossOrthogonal(d, a);
    assert Cross(d, InPlanePart(a, d)) == Sub(Cross(d, a), Scale(k, ZERO));
    assert Sub(Cross(d, a), Scale(k, ZERO)) == Cross(d, a);
    NonzeroFactor(n, Dot(Cross(d, e1), a));
  }

  lemma CrossOfDifference(d: V3, a: V3, b: V3)
    ensures Cross(d, Sub(a, b)) == Sub(Cross(d, a), Cross(d, b))
  {}

  lemma CrossWithItself(d: V3)
    ensures Cross(d, d) == ZERO
  {}

  /** The value computed with the program's axes is the axis-free one, hence the same for any axes. */
  lemma MahalanobisIsAxisFree(sqrt: Sqrt, p: Body, q: Body)
    requires IsRoot(sqrt)
    ensures BplaneMahalanobis(sqrt, p, q) == AxisFree(sqrt, Geometry(sqrt, p, q))
  {
    var f1, f2 := ProjectionUsesABasis(sqrt, p, q);
    var g := Geometry(sqrt, p, q);
    if g.Some? {
      AnyAxesAgree(sqrt, g.value.0, g.value.1, g.value.2, f1, f2);
    }
  }

  function Iso(k: real): M3 { M3(V3(k, 0.0, 0.0), V3(0.0, k, 0.0), V3(0.0, 0.0, k)) }

  /** A frame keeps lengths and angles. */
  lemma FrameKeepsLength(m: M3, a: V3)
    requires Orthonormal(m)
    ensures Norm2(Mul(m, a)) == Norm2(a)
  {
    ProjectedMissIsShorter(Iso(1.0), a, m.r1, m.r2, m.r3);
    PlaneNormal(m.r1, m.r2, m.r3);
    var t := Cross(m.r2, m.r3);
    if t != m.r1 {
      ScaleDot(-1.0, m.r1, a);
    }
    assert Sq(Dot(t, a)) == Sq(Dot(m.r1, a));
    assert Norm2(Mul(m, a)) == Sq(Dot(m.r1, a)) + Sq(Dot(m.r2, a)) + Sq(Dot(m.r3, a));
  }

  lemma FrameKeepsDot(m: M3, a: V3, b: V3)
    requires Orthonormal(m)
    ensures Dot(Mul(m, a), Mul(m, b)) == Dot(a, b)
  {
    FrameKeepsLength(m, a);
    FrameKeepsLength(m, b);
    FrameKeepsLength(m, Add(a, b));
    MulAdds(m, a, b);
    NormOfSum(a, b);
    NormOfSum(Mul(m, a), Mul(m, b));
  }

  lemma MulAdds(m: M3, a: V3, b: V3)
    ensures Mul(m, Add(a, b)) == Add(Mul(m, a), Mul(m, b))
  {
    DotAdd(m.r1, a, b);
    DotAdd(m.r2, a, b);
    DotAdd(m.r3, a, b);
  }

  lemma NormOfSum(a: V3, b: V3)
    ensures Norm2(Add(a, b)) == Norm2(a) + 2.0 * Dot(a, b) + Norm2(b)
  {}

  lemma IsoForm(m: M3, k: real, a: V3, b: V3)
    requires Orthonormal(m)
    ensures Form(Sandwich(m, Iso(k)), a, b) == Times(k, Dot(a, b))
  {
    var u, w := Mul(m, a), Mul(m, b);
    SandwichForm(m, Iso(k), a, b);
    IsoScales(k, w);
    ScaledForm(k, u, w);
    FrameKeepsDot(m, a, b);
  }

  lemma ScaledForm(k: real, u: V3, w: V3)
    ensures Dot(u, Scale(k, w)) == Times(k, Dot(u, w))
  {
    ScaleDot(k, w, u);
  }

  lemma IsoScales(k: real, a: V3)
    ensures Mul(Iso(k), a) == Scale(k, a)
  {}

  /** When both bodies are uncertain alike in every direction, with variances k1 and k2, the value under the root
      is the squared projected miss over k1 + k2. */
  lemma RoundUncertainty(sqrt: Sqrt, p: Body, q: Body, k1: real, k2: real)
    requires IsRoot(sqrt) && p.cov == Iso(k1) && q.cov == Iso(k2) && k1 + k2 > 0.0
    requires ProjectToBplane(sqrt, p, q).Some?
    ensures var proj := ProjectToBplane(sqrt, p, q).value;
      Solved(proj) == Ratio(Sq(proj.x) + Sq(proj.y), k1 + k2)
  {
    var f1, f2 := ProjectionUsesABasis(sqrt, p, q);
    var (c, dr, d) := Geometry(sqrt, p, q).value;
    var m1, m2 := Eci2Rtn(sqrt, p.r, p.v).value, Eci2Rtn(sqrt, q.r, q.v).value;
    RtnIsOrthonormal(sqrt, p.r, p.v);
    RtnIsOrthonormal(sqrt, q.r, q.v);
    RoundForm(m1, k1, m2, k2, f1, f1);
    RoundForm(m1, k1, m2, k2, f1, f2);
    RoundForm(m1, k1, m2, k2, f2, f1);
    RoundForm(m1, k1, m2, k2, f2, f2);
    DotSymmetric(f1, f2);
    RoundSolved(Project(c, dr, f1, f2), k1 + k2);
  }

  lemma RoundForm(m1: M3, k1: real, m2: M3, k2: real, a: V3, b: V3)
    requires Orthonormal(m1) && Orthonormal(m2)
    ensures Form(Combined(m1, Iso(k1), m2, Iso(k2)), a, b) == (k1 + k2) * Dot(a, b)
  {
    AddForm(Sandwich(m1, Iso(k1)), Sandwich(m2, Iso(k2)), a, b);
    IsoForm(m1, k1, a, b);
    IsoForm(m2, k2, a, b);
  }

  lemma RoundSolved(p: Projection, k: real)
    requires p.cov == M2(k, 0.0, 0.0, k) && k > 0.0
    ensures Solved(p) == Ratio(Sq(p.x) + Sq(p.y), k)
  {
    SolvedIsRatio(p);
    var s := Sq(p.x) + Sq(p.y);
    assert Numerator(p) == k * s && Det(p.cov) == k * k;
    RatioCancels(Numerator(p), Det(p.cov), s, k);
  }

  lemma RatioCancels(num: real, det: real, s: real, k: real)
    requires k > 0.0 && num == k * s && det == k * k
    ensures Ratio(num, det) == Ratio(s, k)
  {
    ProductPositive(k, k, det);
    var x := s / k;
    assert x * k == s;
    assert x * det == num;
    assert num / det == x;
  }

  /** The order of the two objects does not matter. */
  lemma MahalanobisIgnoresOrder(sqrt: Sqrt, p: Body, q: Body)
    requires IsRoot(sqrt)
    ensures BplaneMahalanobis(sqrt, p, q) == BplaneMahalanobis(sqrt, q, p)
  {
    MahalanobisIsAxisFree(sqrt, p, q);
    MahalanobisIsAxisFree(sqrt, q, p);
    SwappedGeometry(sqrt, p, q);
    var g := Geometry(sqrt, p, q);
    if g.Some? {
      OppositeGeometry(sqrt, g.value.0, g.value.1, g.value.2);
    }
  }

  lemma SwappedGeometry(sqrt: Sqrt, p: Body, q: Body)
    ensures var g := Geometry(sqrt, p, q);
      Geometry(sqrt, q, p) ==
      if g.None? then None else Some((g.value.0, Scale(-1.0, g.value.1), Scale(-1.0, g.value.2)))
  {
    var a, b := Sub(q.v, p.v), Sub(p.v, q.v);
    OppositeNorm(a, b);
    if Norm(sqrt, a) != 0.0 {
      OppositeQuotients(a, b, Norm(sqrt, a));
    }
    OppositeMiss(q.r, p.r);
    forall m, n: M3
      ensures AddM(m, n) == AddM(n, m)
    {}
  }

  lemma OppositeMiss(a: V3, b: V3)
    ensures Scale(1000.0, Sub(b, a)) == Scale(-1.0, Scale(1000.0, Sub(a, b)))
  {}

  lemma OppositeGeometry(sqrt: Sqrt, c: M3, dr: V3, d: V3)
    ensures AxisFree(sqrt, Some((c, Scale(-1.0, dr), Scale(-1.0, d)))) == AxisFree(sqrt, Some((c, dr, d)))
  {
    OppositeCross(d, dr);
    FormOfOpposite(Cofactors(c), d);
  }

  lemma OppositeCross(a: V3, b: V3)
    ensures Cross(Scale(-1.0, a), Scale(-1.0, b)) == Cross(a, b)
  {}

  lemma OppositeNorm(a: V3, b: V3)
    requires b == Scale(-1.0, a)
    ensures Norm2(a) == Norm2(b)
  {}

  lemma OppositeQuotients(a: V3, b: V3, k: real)
    requires b == Scale(-1.0, a) && k != 0.0
    ensures Div(b, k) == Scale(-1.0, Div(a, k))
  {}

  /** Symmetric positive semidefinite object covariances give a symmetric positive semidefinite projected
      covariance, on the rotated axes of any frames. */
  lemma ProjectionKeepsPsd(m1: M3, c1: M3, m2: M3, c2: M3, dr: V3, f1: V3, f2: V3)
    requires Psd(c1) && Psd(c2)
    ensures Psd(Combined(m1, c1, m2, c2))
    ensures var m := Project(Combined(m1, c1, m2, c2), dr, f1, f2).cov;
      m.b == m.c && forall a: real, b: real :: QuadPoly(a, b, m.a, m.b, m.c, m.d) >= 0.0
  {
    var c := Combined(m1, c1, m2, c2);
    SandwichKeepsPsd(m1, c1);
    SandwichKeepsPsd(m2, c2);
    SumKeepsPsd(Sandwich(m1, c1), Sandwich(m2, c2));
    FormSymmetric(c, f1, f2);
    forall a: real, b: real
      ensures QuadPoly(a, b, Form(c, f1, f1), Form(c, f1, f2), Form(c, f2, f1), Form(c, f2, f2)) >= 0.0
    {
      QuadOfComb(c, a, f1, b, f2);
      assert Quad(c, Comb(a, f1, b, f2)) >= 0.0;
    }
  }

  /** The projected miss is never longer than the separation. */
  lemma ProjectedMissIsShorter(c: M3, dr: V3, d: V3, f1: V3, f2: V3)
    requires PlaneBasis(d, f1, f2)
    ensures var p := Project(c, dr, f1, f2);
      Sq(p.x) + Sq(p.y) == Norm2(dr) - Sq(Dot(Cross(f1, f2), dr)) <= Norm2(dr)
  {
    var x, y := Dot(f1, dr), Dot(f2, dr);
    var t := Cross(f1, f2);
    TurnedMiss(dr, f1, f2);
    Lagrange(t, dr);
    Lagrange(f1, f2);
    assert Norm2(t) == 1.0;
    CombNorm(x, f2, -y, f1);
    assert Norm2(Cross(t, dr)) == Norm2(dr) - Sq(Dot(t, dr));
  }

  lemma CombNorm(p: real, x: V3, q: real, y: V3)
    requires Unit(x) && Unit(y) && Dot(y, x) == 0.0
    ensures Norm2(Comb(p, x, q, y)) == Sq(p) + Sq(q)
  {
    var w := Comb(p, x, q, y);
    DotComb(w, p, x, q, y);
    DotSymmetric(w, x);
    DotSymmetric(w, y);
    DotComb(x, p, x, q, y);
    DotComb(y, p, x, q, y);
    DotSymmetric(x, y);
  }

  ghost predicate Psd2(m: M2) {
    m.b == m.c && forall a: real, b: real :: QuadPoly(a, b, m.a, m.b, m.c, m.d) >= 0.0
  }

  /** What the projection returns: a symmetric positive semidefinite 2x2 covariance, and a miss no longer
      than the separation in metres. */
  lemma ProjectToBplaneIsSound(sqrt: Sqrt, p: Body, q: Body)
    requires IsRoot(sqrt) && Psd(p.cov) && Psd(q.cov)
    requires ProjectToBplane(sqrt, p, q).Some?
    ensures var proj := ProjectToBplane(sqrt, p, q).value;
      Psd2(proj.cov) && Sq(proj.x) + Sq(proj.y) <= Norm2(Scale(1000.0, Sub(q.r, p.r)))
  {
    var f1, f2 := ProjectionUsesABasis(sqrt, p, q);
    var (c, dr, d) := Geometry(sqrt, p, q).value;
    var m1, m2 := Eci2Rtn(sqrt, p.r, p.v).value, Eci2Rtn(sqrt, q.r, q.v).value;
    ProjectionKeepsPsd(m1, p.cov, m2, q.cov, dr, f1, f2);
    SquareNonNegative(Dot(Cross(f1, f2), dr));
    ProjectedMissIsShorter(c, dr, d, f1, f2);
  }

  /** The length of the projected miss, in metres for positions in kilometres: the part of the separation across
      the relative velocity. */
  lemma ProjectedMissExactly(sqrt: Sqrt, p: Body, q: Body)
    requires IsRoot(sqrt) && ProjectToBplane(sqrt, p, q).Some?
    ensures var proj := ProjectToBplane(sqrt, p, q).value;
      Times(Norm2(Sub(q.v, p.v)), Sq(proj.x) + Sq(proj.y)) ==
      1000000.0 * Norm2(Cross(Sub(q.v, p.v), Sub(q.r, p.r)))
  {
    var f1, f2 := ProjectionUsesABasis(sqrt, p, q);
    var (c, dr, d) := Geometry(sqrt, p, q).value;
    var dv, sep := Sub(q.v, p.v), Sub(q.r, p.r);
    var n := Norm(sqrt, dv);
    NormPositive(dv);
    DivScales(dv, n);
    BasisMiss(c, dr, d, f1, f2);
    assert Sq(n) == Norm2(dv);
    ScaledMiss(n, d, dv, dr, sep);
  }

  lemma ScaledMiss(n: real, d: V3, dv: V3, dr: V3, sep: V3)
    requires dv == Scale(n, d) && dr == Scale(1000.0, sep) && Sq(n) == Norm2(dv)
    ensures Times(Norm2(dv), Norm2(Cross(d, dr))) == 1000000.0 * Norm2(Cross(dv, sep))
  {
    var u, w := Cross(d, dr), Cross(dv, sep);
    CrossScales(n, d, dr);
    CrossOfScaled(dv, 1000.0, sep);
    assert Scale(n, u) == Scale(1000.0, w);
    ScaleNorm(n, u);
    ScaleNorm(1000.0, w);
  }

  lemma BasisMiss(c: M3, dr: V3, d: V3, f1: V3, f2: V3)
    requires PlaneBasis(d, f1, f2)
    ensures var p := Project(c, dr, f1, f2);
      Sq(p.x) + Sq(p.y) == Norm2(Cross(d, dr))
  {
    var t := Cross(f1, f2);
    ProjectedMissIsShorter(c, dr, d, f1, f2);
    Lagrange(f1, f2);
    Lagrange(t, dr);
    PlaneNormal(d, f1, f2);
    if t != d {
      CrossScales(-1.0, d, dr);
      ScaleNorm(-1.0, Cross(d, dr));
    }
  }

  lemma CrossOfScaled(a: V3, k: real, b: V3)
    ensures Cross(a, Scale(k, b)) == Scale(k, Cross(a, b))
  {
    var s, u := Scale(k, b), Cross(a, b);
    ScaledMinor(k, a.y, b.z, s.z, a.z, b.y, s.y, u.x);
    ScaledMinor(k, a.z, b.x, s.x, a.x, b.z, s.z, u.y);
    ScaledMinor(k, a.x, b.y, s.y, a.y, b.x, s.x, u.z);
  }

  lemma SquareNonNegative(x: real)
    ensures Sq(x) >= 0.0
  {}

  /** A positive semidefinite, non-singular 2x2 form vanishes at zero only. */
  lemma PositiveDefinite(a: real, b: real, d: real, x: real, y: real)
    requires forall u: real, v: real :: QuadPoly(u, v, a, b, b, d) >= 0.0
    requires a * d - b * b != 0.0
    ensures a * d - b * b > 0.0
    ensures QuadPoly(x, y, a, b, b, d) == 0.0 ==> x == 0.0 && y == 0.0
  {
    assert QuadPoly(1.0, 0.0, a, b, b, d) == a >= 0.0;
    assert QuadPoly(0.0, 1.0, a, b, b, d) == d >= 0.0;
    var det := a * d - b * b;
    if a == 0.0 {
      FlatFormHasNoCross(b, d);
      assert false;
    } else {
      assert QuadPoly(-b, a, a, b, b, d) == a * det;
      if det < 0.0 {
        ProductPositive(a, -det, -(a * det));
      }
      if QuadPoly(x, y, a, b, b, d) == 0.0 {
        var l := a * x + b * y;
        assert a * QuadPoly(x, y, a, b, b, d) == Sq(l) + det * Sq(y);
        assert Sq(l) >= 0.0;
        if y != 0.0 {
          SquarePositive(y);
          ProductPositive(det, Sq(y), det * Sq(y));
          assert false;
        } else {
          assert Sq(y) == 0.0;
          RootZero(l, Sq(l));
          NonzeroFactor(a, x);
        }
      }
    }
  }

  lemma FlatFormHasNoCross(b: real, d: real)
    requires forall u: real, v: real :: QuadPoly(u, v, 0.0, b, b, d) >= 0.0
    ensures b == 0.0
  {
    if b != 0.0 {
      var u := -(d + 1.0) / (2.0 * b);
      assert u * (b + b) == -(d + 1.0);
      FlatValue(u, b, d, u * (b + b));
      assert false;
    }
  }

  lemma FlatValue(u: real, b: real, d: real, cross: real)
    requires cross == u * (b + b)
    ensures QuadPoly(u, 1.0, 0.0, b, b, d) == cross + d
  {}

  /** For positive semidefinite covariances a value is returned exactly when both frames exist, the
      velocities differ, the projected covariance is not singular and the projected miss is not zero;
      a negative value under the root never occurs. */
  lemma DefinedExactly(sqrt: Sqrt, p: Body, q: Body)
    requires IsRoot(sqrt) && Psd(p.cov) && Psd(q.cov)
    ensures BplaneMahalanobis(sqrt, p, q).Some? <==>
      && Cross(p.r, p.v) != ZERO && Cross(q.r, q.v) != ZERO && p.v != q.v
      && var proj := ProjectToBplane(sqrt, p, q);
         proj.Some? && Det(proj.value.cov) != 0.0 && (proj.value.x != 0.0 || proj.value.y != 0.0)
  {
    var f1, f2 := ProjectionUsesABasis(sqrt, p, q);
    RtnIsOrthonormal(sqrt, p.r, p.v);
    RtnIsOrthonormal(sqrt, q.r, q.v);
    NormZero(sqrt, Sub(q.v, p.v));
    assert p.v == q.v <==> Sub(q.v, p.v) == ZERO;
    var g := Geometry(sqrt, p, q);
    if g.Some? {
      var m1, m2 := Eci2Rtn(sqrt, p.r, p.v).value, Eci2Rtn(sqrt, q.r, q.v).value;
      var proj := Project(g.value.0, g.value.1, f1, f2);
      ProjectionKeepsPsd(m1, p.cov, m2, q.cov, g.value.1, f1, f2);
      SolvedExactly(proj);
    }
  }

  lemma SolvedExactly(p: Projection)
    requires p.cov.b == p.cov.c
    requires forall a: real, b: real :: QuadPoly(a, b, p.cov.a, p.cov.b, p.cov.c, p.cov.d) >= 0.0
    ensures Solved(p).Some? && Solved(p).value > 0.0 <==> Det(p.cov) != 0.0 && (p.x != 0.0 || p.y != 0.0)
  {
    SolvedIsRatio(p);
    if Det(p.cov) != 0.0 {
      TurnedForm(p);
      PositiveDefinite(p.cov.a, p.cov.b, p.cov.d, -p.y, p.x);
      RatioPositive(Numerator(p), Det(p.cov));
      NumeratorAtZero(p);
    }
  }

  lemma TurnedForm(p: Projection)
    requires p.cov.b == p.cov.c
    ensures Numerator(p) == QuadPoly(-p.y, p.x, p.cov.a, p.cov.b, p.cov.b, p.cov.d)
  {}

  lemma NumeratorAtZero(p: Projection)
    ensures p.x == 0.0 && p.y == 0.0 ==> Numerator(p) == 0.0
  {}

  lemma RatioPositive(num: real, det: real)
    requires det > 0.0 && num >= 0.0
    ensures Ratio(num, det).Some? && (Ratio(num, det).value > 0.0 <==> num != 0.0)
  {
    var val := num / det;
    assert val * det == num;
  }

  // ---------- The copy in the CCSDS mapper ----------

  /** The six position entries of a canonical covariance. */
  datatype PositionCov = PositionCov(rr: Option<real>, tr: Option<real>, tt: Option<real>,
                                     nr: Option<real>, nt: Option<real>, nn: Option<real>)

  /** The symmetric 3x3 matrix, or None when an entry is missing. */
  function PositionCovRtn(c: PositionCov): Option<M3> {
    if c.rr.None? || c.tr.None? || c.tt.None? || c.nr.None? || c.nt.None? || c.nn.None? then None
    else Some(M3(V3(c.rr.value, c.tr.value, c.nr.value),
                 V3(c.tr.value, c.tt.value, c.nt.value),
                 V3(c.nr.value, c.nt.value, c.nn.value)))
  }

  /** The mapper's own one-piece computation. */
  function CcsdsMahalanobis(sqrt: Sqrt, p: Body, q: Body): Option<real> {
    var m1, m2 := Eci2Rtn(sqrt, p.r, p.v), Eci2Rtn(sqrt, q.r, q.v);
    if m1.None? || m2.None? then None
    else
      var c := Combined(m1.value, p.cov, m2.value, q.cov);
      var dr, dv := Scale(1000.0, Sub(q.r, p.r)), Sub(q.v, p.v);
      var ndv := Norm(sqrt, dv);
      if ndv == 0.0 then None
      else
        var d := Div(dv, ndv);
        var e := InPlanePart(Helper(d), d);
        var n1 := Norm(sqrt, e);
        if n1 == 0.0 then None
        else
          var e1 := Div(e, n1);
          var e2 := Cross(d, e1);
          var c2 := M2(Form(c, e1, e1), Form(c, e1, e2), Form(c, e2, e1), Form(c, e2, e2));
          var val := Solved(Projection(c2, Dot(e1, dr), Dot(e2, dr)));
          if val.None? || val.value <= 0.0 then None else Some(sqrt(val.value))
  }

  /** The mapper's copy is axis-free and order-free as well, and agrees with the shared module. */
  lemma CopiesAgree(sqrt: Sqrt, p: Body, q: Body)
    requires IsRoot(sqrt)
    ensures CcsdsMahalanobis(sqrt, p, q) == BplaneMahalanobis(sqrt, p, q) == CcsdsMahalanobis(sqrt, q, p)
  {
    MahalanobisIgnoresOrder(sqrt, p, q);
  }

  /** One object of a canonical CDM: its state, when complete, and its covariance, when present. */
  datatype CdmObject = CdmObject(state: Option<(V3, V3)>, cov: Option<PositionCov>)

  function BodyOf(o: CdmObject): Option<Body> {
    if o.state.None? || o.cov.None? || PositionCovRtn(o.cov.value).None? then None
    else Some(Body(o.state.value.0, o.state.value.1, PositionCovRtn(o.cov.value).value))
  }

  function ComputeMahalanobis(sqrt: Sqrt, o1: CdmObject, o2: CdmObject): Option<real> {
    var p, q := BodyOf(o1), BodyOf(o2);
    if p.None? || q.None? then None else CcsdsMahalanobis(sqrt, p.value, q.value)
  }

  /** A complete record gives its own position, velocity and the symmetric matrix of its six entries, in the order
      radial, along-track, normal; any missing part gives none. */
  lemma BodyOfExactly(o: CdmObject)
    ensures BodyOf(o).None? <==>
      o.state.None? || o.cov.None? || exists x :: x in Entries(o.cov.value) && x.None?
    ensures BodyOf(o).Some? ==>
      var body, c := BodyOf(o).value, o.cov.value;
      && (body.r, body.v) == o.state.value
      && c == PositionCov(Some(body.cov.r1.x), Some(body.cov.r2.x), Some(body.cov.r2.y),
                          Some(body.cov.r3.x), Some(body.cov.r3.y), Some(body.cov.r3.z))
      && body.cov.r1.y == body.cov.r2.x && body.cov.r1.z == body.cov.r3.x && body.cov.r2.z == body.cov.r3.y
  {
    if o.cov.Some? {
      var c, all := o.cov.value, Entries(o.cov.value);
      assert c.rr in all && c.tr in all && c.tt in all && c.nr in all && c.nt in all && c.nn in all;
    }
  }

  function Entries(c: PositionCov): seq<Option<real>> { [c.rr, c.tr, c.tt, c.nr, c.nt, c.nn] }

  /** The mapper never fabricates a value: it has one exactly when both records are complete and the
      geometry is regular, the same whichever object comes first. */
  lemma MapperDefinedExactly(sqrt: Sqrt, o1: CdmObject, o2: CdmObject)
    requires IsRoot(sqrt)
    requires forall o :: o in [o1, o2] && BodyOf(o).Some? ==> Psd(BodyOf(o).value.cov)
    ensures ComputeMahalanobis(sqrt, o1, o2) == ComputeMahalanobis(sqrt, o2, o1)
    ensures ComputeMahalanobis(sqrt, o1, o2).Some? <==>
      && BodyOf(o1).Some? && BodyOf(o2).Some?
      && var p, q := BodyOf(o1).value, BodyOf(o2).value;
         && Cross(p.r, p.v) != ZERO && Cross(q.r, q.v) != ZERO && p.v != q.v
         && var proj := ProjectToBplane(sqrt, p, q);
            proj.Some? && Det(proj.value.cov) != 0.0 && (proj.value.x != 0.0 || proj.value.y != 0.0)
  {
    if BodyOf(o1).Some? && BodyOf(o2).Some? {
      assert o1 in [o1, o2] && o2 in [o1, o2];
      CopiesAgree(sqrt, BodyOf(o1).value, BodyOf(o2).value);
      DefinedExactly(sqrt, BodyOf(o1).value, BodyOf(o2).value);
    }
  }
}
