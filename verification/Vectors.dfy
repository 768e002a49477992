/** Three-vectors over the reals. */
module Vectors {
  import opened Prelude

  datatype V3 = V3(x: real, y: real, z: real)

  const ZERO := V3(0.0, 0.0, 0.0)

  function Add(a: V3, b: V3): V3 { V3(a.x + b.x, a.y + b.y, a.z + b.z) }

  function Sub(a: V3, b: V3): V3 { V3(a.x - b.x, a.y - b.y, a.z - b.z) }

  function Scale(k: real, a: V3): V3 { V3(Times(k, a.x), Times(k, a.y), Times(k, a.z)) }

  /** a + k * b */
  function Axpy(a: V3, k: real, b: V3): V3 { V3(a.x + Times(k, b.x), a.y + Times(k, b.y), a.z + Times(k, b.z)) }

  function Dot(a: V3, b: V3): real { a.x * b.x + a.y * b.y + a.z * b.z }

  function Cross(a: V3, b: V3): V3 {
    V3(a.y * b.z - a.z * b.y, a.z * b.x - a.x * b.z, a.x * b.y - a.y * b.x)
  }

  function Norm2(a: V3): real { Dot(a, a) }

  /** The weighted sum of the four Runge-Kutta slopes. */
  function Slopes(k1: V3, k2: V3, k3: V3, k4: V3): V3 {
    V3(k1.x + 2.0 * k2.x + 2.0 * k3.x + k4.x,
       k1.y + 2.0 * k2.y + 2.0 * k3.y + k4.y,
       k1.z + 2.0 * k2.z + 2.0 * k3.z + k4.z)
  }

  // ---------- What the slopes integrate exactly ----------

  /** A cubic in time, and its integral from 0 to t. */
  datatype Cubic = Cubic(c0: real, c1: real, c2: real, c3: real) {
    function At(t: real): real { c0 + c1 * t + c2 * (t * t) + c3 * (t * t * t) }

    function Integral(t: real): real {
      c0 * t + c1 * (t * t) / 2.0 + c2 * (t * t * t) / 3.0 + c3 * (t * t * t * t) / 4.0
    }
  }

  function AtTime(x: Cubic, y: Cubic, z: Cubic, t: real): V3 { V3(x.At(t), y.At(t), z.At(t)) }

  lemma CubicIsIntegrated(q: Cubic, h: real)
    ensures h / 6.0 * (q.At(0.0) + 2.0 * q.At(0.5 * h) + 2.0 * q.At(0.5 * h) + q.At(h)) == q.Integral(h)
  {
    var g, g2, g3 := h, h * h, h * h * h;
    assert (0.5 * h) * (0.5 * h) == 0.25 * g2;
    assert (0.5 * h) * (0.5 * h) * (0.5 * h) == 0.125 * g3;
    CubicSum(q, g, g2, g3, q.At(0.0), q.At(0.5 * h), q.At(h));
    assert h / 6.0 * (6.0 * q.c0 + 3.0 * (q.c1 * g) + 2.0 * (q.c2 * g2) + 1.5 * (q.c3 * g3)) ==
           q.c0 * h + q.c1 * (g * h) / 2.0 + q.c2 * (g2 * h) / 3.0 + q.c3 * (g3 * h) / 4.0;
  }

  lemma CubicSum(q: Cubic, g: real, g2: real, g3: real, a: real, b: real, c: real)
    requires a == q.c0
    requires b == q.c0 + q.c1 * (0.5 * g) + q.c2 * (0.25 * g2) + q.c3 * (0.125 * g3)
    requires c == q.c0 + q.c1 * g + q.c2 * g2 + q.c3 * g3
    ensures a + 2.0 * b + 2.0 * b + c == 6.0 * q.c0 + 3.0 * (q.c1 * g) + 2.0 * (q.c2 * g2) + 1.5 * (q.c3 * g3)
  {}

  /** A sixth of the step times the slopes of any cubic, taken at the start, twice in the middle and at the end
      of the step, is its integral over the step. */
  lemma SlopesIntegrateCubics(x: Cubic, y: Cubic, z: Cubic, h: real)
    ensures var start, middle, end := AtTime(x, y, z, 0.0), AtTime(x, y, z, 0.5 * h), AtTime(x, y, z, h);
      Scale(h / 6.0, Slopes(start, middle, middle, end)) == V3(x.Integral(h), y.Integral(h), z.Integral(h))
  {
    CubicIsIntegrated(x, h);
    CubicIsIntegrated(y, h);
    CubicIsIntegrated(z, h);
  }

  // ---------- A Runge-Kutta step from its accelerations ----------

  /** a1 + 2 a2 + 2 a3 + a4 */
  function Weighed(a1: V3, a2: V3, a3: V3, a4: V3): V3 {
    Add(Add(a1, a4), Scale(2.0, Add(a2, a3)))
  }

  lemma AxpyAdds(p: V3, k: real, v: V3)
    ensures Axpy(p, k, v) == Add(p, Scale(k, v))
  {}

  lemma SlopesAreWeighed(a1: V3, a2: V3, a3: V3, a4: V3)
    ensures Slopes(a1, a2, a3, a4) == Weighed(a1, a2, a3, a4)
  {}

  /** A position moved for a time k by a velocity that was itself moved for a time m by an acceleration. */
  lemma MovedTwice(p: V3, k: real, v: V3, m: real, a: V3, km: real)
    requires km == k * m
    ensures Axpy(p, k, Axpy(v, m, a)) == Add(Add(p, Scale(k, v)), Scale(km, a))
  {
    var w := Axpy(v, m, a);
    MovedComponent(k, v.x, m, a.x, km, w.x);
    MovedComponent(k, v.y, m, a.y, km, w.y);
    MovedComponent(k, v.z, m, a.z, km, w.z);
    SameMoves(p, k, w, v, km, a);
  }

  lemma MovedComponent(k: real, v: real, m: real, a: real, km: real, w: real)
    requires km == k * m && w == v + m * a
    ensures Times(k, w) == Times(k, v) + Times(km, a)
  {
    assert k * (m * a) == km * a;
  }

  lemma SameMoves(p: V3, k: real, w: V3, v: V3, m: real, a: V3)
    requires Times(k, w.x) == Times(k, v.x) + Times(m, a.x)
    requires Times(k, w.y) == Times(k, v.y) + Times(m, a.y)
    requires Times(k, w.z) == Times(k, v.z) + Times(m, a.z)
    ensures Axpy(p, k, w) == Add(Add(p, Scale(k, v)), Scale(m, a))
  {}

  /** The position after the step does not depend on the last acceleration. */
  lemma PositionFromAccelerations(p: V3, v: V3, h: real, a1: V3, a2: V3, a3: V3)
    ensures Axpy(p, h / 6.0, Slopes(v, Axpy(v, 0.5 * h, a1), Axpy(v, 0.5 * h, a2), Axpy(v, h, a3))) ==
            Add(Add(p, Scale(h, v)), Scale(h * h / 6.0, Add(Add(a1, a2), a3)))
  {
    var sum := Add(Add(a1, a2), a3);
    VelocityTimesSix(v, h, a1, a2, a3);
    MovedTwice(p, h / 6.0, Scale(6.0, v), h, sum, h * h / 6.0);
    SixSixths(h / 6.0, h, v);
  }

  lemma VelocityTimesSix(v: V3, h: real, a1: V3, a2: V3, a3: V3)
    ensures Slopes(v, Axpy(v, 0.5 * h, a1), Axpy(v, 0.5 * h, a2), Axpy(v, h, a3)) ==
            Axpy(Scale(6.0, v), h, Add(Add(a1, a2), a3))
  {
    var p, q, r, s := Axpy(v, 0.5 * h, a1), Axpy(v, 0.5 * h, a2), Axpy(v, h, a3), Add(Add(a1, a2), a3);
    SixthComponent(v.x, h, a1.x, a2.x, a3.x, p.x, q.x, r.x, s.x);
    SixthComponent(v.y, h, a1.y, a2.y, a3.y, p.y, q.y, r.y, s.y);
    SixthComponent(v.z, h, a1.z, a2.z, a3.z, p.z, q.z, r.z, s.z);
    SameSlopes(v, p, q, r, h, s);
  }

  lemma SixthComponent(v: real, h: real, a: real, b: real, c: real, p: real, q: real, r: real, s: real)
    requires p == v + Times(0.5 * h, a) && q == v + Times(0.5 * h, b) && r == v + Times(h, c) && s == a + b + c
    ensures v + 2.0 * p + 2.0 * q + r == 6.0 * v + Times(h, s)
  {}

  lemma SameSlopes(v: V3, p: V3, q: V3, r: V3, h: real, s: V3)
    requires v.x + 2.0 * p.x + 2.0 * q.x + r.x == 6.0 * v.x + Times(h, s.x)
    requires v.y + 2.0 * p.y + 2.0 * q.y + r.y == 6.0 * v.y + Times(h, s.y)
    requires v.z + 2.0 * p.z + 2.0 * q.z + r.z == 6.0 * v.z + Times(h, s.z)
    ensures Slopes(v, p, q, r) == Axpy(Scale(6.0, v), h, s)
  {}

  lemma SixSixths(g: real, h: real, v: V3)
    requires 6.0 * g == h
    ensures Scale(g, Scale(6.0, v)) == Scale(h, v)
  {
    var s := Scale(6.0, v);
    SixthOfSix(g, h, v.x, s.x);
    SixthOfSix(g, h, v.y, s.y);
    SixthOfSix(g, h, v.z, s.z);
    SameScale(g, s, h, v);
  }

  lemma SixthOfSix(g: real, h: real, v: real, s: real)
    requires 6.0 * g == h && s == 6.0 * v
    ensures Times(g, s) == Times(h, v)
  {}

  lemma SameScale(g: real, s: V3, h: real, v: V3)
    requires Times(g, s.x) == Times(h, v.x) && Times(g, s.y) == Times(h, v.y) && Times(g, s.z) == Times(h, v.z)
    ensures Scale(g, s) == Scale(h, v)
  {}

  /** The positions of the later stages. */
  lemma StagePositions(p: V3, v: V3, h: real, a1: V3, a2: V3)
    ensures var q2 := Add(p, Scale(h / 2.0, v));
      && Axpy(p, 0.5 * h, v) == q2
      && Axpy(p, 0.5 * h, Axpy(v, 0.5 * h, a1)) == Add(q2, Scale(h * h / 4.0, a1))
      && Axpy(p, h, Axpy(v, 0.5 * h, a2)) == Add(Add(p, Scale(h, v)), Scale(h * h / 2.0, a2))
  {
    AxpyAdds(p, 0.5 * h, v);
    HalfStep(h, v);
    MovedTwice(p, 0.5 * h, v, 0.5 * h, a1, h * h / 4.0);
    MovedTwice(p, h, v, 0.5 * h, a2, h * h / 2.0);
  }

  lemma HalfStep(h: real, v: V3)
    ensures Scale(0.5 * h, v) == Scale(h / 2.0, v)
  {
    assert 0.5 * h == h / 2.0;
  }
}
