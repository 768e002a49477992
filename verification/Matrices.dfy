/** Real 3x3 matrices as rows, and the polynomial identities the encounter-plane algebra rests on. */
module Matrices {
  import opened Prelude
  import opened Vectors

  datatype M3 = M3(r1: V3, r2: V3, r3: V3)

  function Mul(m: M3, v: V3): V3 { V3(Dot(m.r1, v), Dot(m.r2, v), Dot(m.r3, v)) }

  function Column(m: M3, j: nat): V3 {
    if j == 0 then V3(m.r1.x, m.r2.x, m.r3.x)
    else if j == 1 then V3(m.r1.y, m.r2.y, m.r3.y)
    else V3(m.r1.z, m.r2.z, m.r3.z)
  }

  function AddM(a: M3, b: M3): M3 { M3(Add(a.r1, b.r1), Add(a.r2, b.r2), Add(a.r3, b.r3)) }

  /** The bilinear form a . (C b). */
  function Form(c: M3, a: V3, b: V3): real { Dot(a, Mul(c, b)) }

  function Quad(c: M3, a: V3): real { Form(c, a, a) }

  /** The product m^T c m. */
  function Sandwich(m: M3, c: M3): M3 {
    var x, y, z := Column(m, 0), Column(m, 1), Column(m, 2);
    M3(V3(Form(c, x, x), Form(c, x, y), Form(c, x, z)),
       V3(Form(c, y, x), Form(c, y, y), Form(c, y, z)),
       V3(Form(c, z, x), Form(c, z, y), Form(c, z, z)))
  }

  predicate Symmetric(c: M3) {
    c.r1.y == c.r2.x && c.r1.z == c.r3.x && c.r2.z == c.r3.y
  }

  ghost predicate Psd(c: M3) {
    Symmetric(c) && forall v: V3 :: Quad(c, v) >= 0.0
  }

  /** The matrix of cofactors: its form on a normal is the determinant of c on the plane. */
  function Cofactors(c: M3): M3 {
    M3(Cross(c.r2, c.r3), Cross(c.r3, c.r1), Cross(c.r1, c.r2))
  }

  function Comb(a: real, x: V3, b: real, y: V3): V3 { Add(Scale(a, x), Scale(b, y)) }

  function Comb3(a: real, x: V3, b: real, y: V3, c: real, z: V3): V3 { Add(Comb(a, x, b, y), Scale(c, z)) }

  // ---------- Vector identities ----------

  lemma Lagrange(a: V3, b: V3)
    ensures Norm2(Cross(a, b)) == Norm2(a) * Norm2(b) - Dot(a, b) * Dot(a, b)
  {}

  lemma TripleProduct(a: V3, b: V3, c: V3)
    ensures Cross(a, Cross(b, c)) == Sub(Scale(Dot(a, c), b), Scale(Dot(a, b), c))
  {
    TripleX(a, b, c);
    TripleY(a, b, c);
    TripleZ(a, b, c);
    Assemble(Cross(a, Cross(b, c)), Dot(a, c), b, Dot(a, b), c);
  }

  lemma Assemble(l: V3, s: real, b: V3, t: real, c: V3)
    requires l.x == Times(s, b.x) - Times(t, c.x)
    requires l.y == Times(s, b.y) - Times(t, c.y)
    requires l.z == Times(s, b.z) - Times(t, c.z)
    ensures l == Sub(Scale(s, b), Scale(t, c))
  {}

  lemma DotTimes(a: V3, b: V3, k: real)
    ensures Times(Dot(a, b), k) == a.x * (b.x * k) + a.y * (b.y * k) + a.z * (b.z * k)
  {}

  lemma TripleX(a: V3, b: V3, c: V3)
    ensures Cross(a, Cross(b, c)).x == Times(Dot(a, c), b.x) - Times(Dot(a, b), c.x)
  {
    DotTimes(a, c, b.x);
    DotTimes(a, b, c.x);
    assert Cross(a, Cross(b, c)).x == a.y * (b.x * c.y - b.y * c.x) - a.z * (b.z * c.x - b.x * c.z);
    assert Times(Dot(a, c), b.x) == a.x * (c.x * b.x) + a.y * (c.y * b.x) + a.z * (c.z * b.x);
    assert Times(Dot(a, b), c.x) == a.x * (b.x * c.x) + a.y * (b.y * c.x) + a.z * (b.z * c.x);
  }

  lemma TripleY(a: V3, b: V3, c: V3)
    ensures Cross(a, Cross(b, c)).y == Times(Dot(a, c), b.y) - Times(Dot(a, b), c.y)
  {
    DotTimes(a, c, b.y);
    DotTimes(a, b, c.y);
    assert Cross(a, Cross(b, c)).y == a.z * (b.y * c.z - b.z * c.y) - a.x * (b.x * c.y - b.y * c.x);
    assert Times(Dot(a, c), b.y) == a.y * (c.y * b.y) + a.z * (c.z * b.y) + a.x * (c.x * b.y);
    assert Times(Dot(a, b), c.y) == a.y * (b.y * c.y) + a.z * (b.z * c.y) + a.x * (b.x * c.y);
  }

  lemma TripleZ(a: V3, b: V3, c: V3)
    ensures Cross(a, Cross(b, c)).z == Times(Dot(a, c), b.z) - Times(Dot(a, b), c.z)
  {
    DotTimes(a, c, b.z);
    DotTimes(a, b, c.z);
    assert Cross(a, Cross(b, c)).z == a.x * (b.z * c.x - b.x * c.z) - a.y * (b.y * c.z - b.z * c.y);
    assert Times(Dot(a, c), b.z) == a.z * (c.z * b.z) + a.x * (c.x * b.z) + a.y * (c.y * b.z);
    assert Times(Dot(a, b), c.z) == a.z * (b.z * c.z) + a.x * (b.x * c.z) + a.y * (b.y * c.z);
  }

  lemma BinetCauchy(a: V3, b: V3, c: V3, d: V3)
    ensures Dot(Cross(a, b), Cross(c, d)) == Dot(a, c) * Dot(b, d) - Dot(a, d) * Dot(b, c)
  {}

  lemma CrossOrthogonal(a: V3, b: V3)
    ensures Dot(Cross(a, b), a) == 0.0 && Dot(Cross(a, b), b) == 0.0
  {}

  lemma DotSymmetric(a: V3, b: V3)
    ensures Dot(a, b) == Dot(b, a)
  {}

  lemma NormPositive(a: V3)
    ensures Norm2(a) >= 0.0 && (Norm2(a) == 0.0 <==> a == ZERO)
  {
    assert Sq(a.x) >= 0.0 && Sq(a.y) >= 0.0 && Sq(a.z) >= 0.0;
    assert Norm2(a) == Sq(a.x) + Sq(a.y) + Sq(a.z);
    if a.x != 0.0 {
      SquarePositive(a.x);
    }
    if a.y != 0.0 {
      SquarePositive(a.y);
    }
    if a.z != 0.0 {
      SquarePositive(a.z);
    }
    assert a == V3(a.x, a.y, a.z);
  }

  lemma SquarePositive(x: real)
    requires x != 0.0
    ensures Sq(x) > 0.0
  {
    if x > 0.0 {
      ProductPositive(x, x, Sq(x));
    } else {
      ProductPositive(-x, -x, Sq(x));
    }
  }

  // ---------- Matrix identities ----------

  lemma MulComb3(c: M3, p: real, x: V3, q: real, y: V3, r: real, z: V3)
    ensures Mul(c, Comb3(p, x, q, y, r, z)) == Comb3(p, Mul(c, x), q, Mul(c, y), r, Mul(c, z))
  {
    DotComb3(c.r1, p, x, q, y, r, z);
    DotComb3(c.r2, p, x, q, y, r, z);
    DotComb3(c.r3, p, x, q, y, r, z);
  }

  lemma DotComb3(a: V3, p: real, x: V3, q: real, y: V3, r: real, z: V3)
    ensures Dot(a, Comb3(p, x, q, y, r, z)) == p * Dot(a, x) + q * Dot(a, y) + r * Dot(a, z)
  {
    assert a.x * (p * x.x + q * y.x + r * z.x) == p * (a.x * x.x) + q * (a.x * y.x) + r * (a.x * z.x);
    assert a.y * (p * x.y + q * y.y + r * z.y) == p * (a.y * x.y) + q * (a.y * y.y) + r * (a.y * z.y);
    assert a.z * (p * x.z + q * y.z + r * z.z) == p * (a.z * x.z) + q * (a.z * y.z) + r * (a.z * z.z);
  }

  lemma MulByColumns(m: M3, v: V3)
    ensures Mul(m, v) == Comb3(v.x, Column(m, 0), v.y, Column(m, 1), v.z, Column(m, 2))
  {}

  /** (m^T c m) as a form is c applied to the images under m. */
  lemma SandwichForm(m: M3, c: M3, a: V3, b: V3)
    ensures Form(Sandwich(m, c), a, b) == Form(c, Mul(m, a), Mul(m, b))
  {
    var x, y, z := Column(m, 0), Column(m, 1), Column(m, 2);
    var w := Mul(c, Mul(m, b));
    MulByColumns(m, b);
    MulComb3(c, b.x, x, b.y, y, b.z, z);
    DotComb3(x, b.x, Mul(c, x), b.y, Mul(c, y), b.z, Mul(c, z));
    DotComb3(y, b.x, Mul(c, x), b.y, Mul(c, y), b.z, Mul(c, z));
    DotComb3(z, b.x, Mul(c, x), b.y, Mul(c, y), b.z, Mul(c, z));
    SandwichRow(Form(c, x, x), Form(c, x, y), Form(c, x, z), b, Dot(x, w));
    SandwichRow(Form(c, y, x), Form(c, y, y), Form(c, y, z), b, Dot(y, w));
    SandwichRow(Form(c, z, x), Form(c, z, y), Form(c, z, z), b, Dot(z, w));
    assert Mul(Sandwich(m, c), b) == V3(Dot(x, w), Dot(y, w), Dot(z, w));
    MulByColumns(m, a);
    ImageDot(a, x, y, z, w, Dot(x, w), Dot(y, w), Dot(z, w));
  }

  lemma ImageDot(a: V3, x: V3, y: V3, z: V3, w: V3, p: real, q: real, r: real)
    requires p == Dot(x, w) && q == Dot(y, w) && r == Dot(z, w)
    ensures Dot(Comb3(a.x, x, a.y, y, a.z, z), w) == Dot(a, V3(p, q, r))
  {
    var u := Comb3(a.x, x, a.y, y, a.z, z);
    ImagePart(a.x, x.x, a.y, y.x, a.z, z.x, w.x, u.x);
    ImagePart(a.x, x.y, a.y, y.y, a.z, z.y, w.y, u.y);
    ImagePart(a.x, x.z, a.y, y.z, a.z, z.z, w.z, u.z);
    DotPart(a.x, p, x, w);
    DotPart(a.y, q, y, w);
    DotPart(a.z, r, z, w);
  }

  lemma ImagePart(k: real, x: real, l: real, y: real, m: real, z: real, w: real, u: real)
    requires u == k * x + l * y + m * z
    ensures u * w == k * (x * w) + l * (y * w) + m * (z * w)
  {}

  lemma DotPart(k: real, p: real, x: V3, w: V3)
    requires p == Dot(x, w)
    ensures k * p == k * (x.x * w.x) + k * (x.y * w.y) + k * (x.z * w.z)
  {}

  lemma SandwichRow(p: real, q: real, r: real, b: V3, total: real)
    requires total == b.x * p + b.y * q + b.z * r
    ensures Dot(V3(p, q, r), b) == total
  {}

  lemma AddForm(c: M3, d: M3, a: V3, b: V3)
    ensures Form(AddM(c, d), a, b) == Form(c, a, b) + Form(d, a, b)
  {
    assert Mul(AddM(c, d), b) == Add(Mul(c, b), Mul(d, b));
    DotAdd(a, Mul(c, b), Mul(d, b));
  }

  lemma DotAdd(a: V3, b: V3, c: V3)
    ensures Dot(a, Add(b, c)) == Dot(a, b) + Dot(a, c)
  {}

  lemma FormSymmetric(c: M3, a: V3, b: V3)
    requires Symmetric(c)
    ensures Form(c, a, b) == Form(c, b, a)
  {}

  /** A covariance stays symmetric positive semidefinite under a change of axes. */
  lemma SandwichKeepsPsd(m: M3, c: M3)
    requires Psd(c)
    ensures Psd(Sandwich(m, c))
  {
    var x, y, z := Column(m, 0), Column(m, 1), Column(m, 2);
    FormSymmetric(c, x, y);
    FormSymmetric(c, x, z);
    FormSymmetric(c, y, z);
    forall v: V3
      ensures Quad(Sandwich(m, c), v) >= 0.0
    {
      SandwichForm(m, c, v, v);
      assert Quad(c, Mul(m, v)) >= 0.0;
    }
  }

  lemma SumKeepsPsd(c: M3, d: M3)
    requires Psd(c) && Psd(d)
    ensures Psd(AddM(c, d))
  {
    forall v: V3
      ensures Quad(AddM(c, d), v) >= 0.0
    {
      AddForm(c, d, v, v);
      assert Quad(c, v) >= 0.0 && Quad(d, v) >= 0.0;
    }
  }

  /** Cross products of images are cofactor images of cross products. */
  lemma CrossOfImages(c: M3, a: V3, b: V3)
    ensures Cross(Mul(c, a), Mul(c, b)) == Mul(Cofactors(c), Cross(a, b))
  {
    BinetCauchy(c.r2, c.r3, a, b);
    BinetCauchy(c.r3, c.r1, a, b);
    BinetCauchy(c.r1, c.r2, a, b);
  }
}
