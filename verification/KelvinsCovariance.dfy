/** The ESA Kelvins mapper: standard deviations and correlations to a 6x6 covariance. */
module KelvinsCovariance {
  import opened Prelude
  import opened Vectors
  import opened Matrices
  import EncounterPlane

  /** The raw fields of one object: six sigmas and fifteen correlations, each possibly missing. */
  datatype Raw = Raw(
    sr: Option<real>, st: Option<real>, sn: Option<real>, srd: Option<real>, std: Option<real>, snd: Option<real>,
    t_r: Option<real>, n_r: Option<real>, n_t: Option<real>,
    rd_r: Option<real>, rd_t: Option<real>, rd_n: Option<real>,
    td_r: Option<real>, td_t: Option<real>, td_n: Option<real>, td_rd: Option<real>,
    nd_r: Option<real>, nd_t: Option<real>, nd_n: Option<real>, nd_rd: Option<real>, nd_td: Option<real>)

  /** The canonical lower triangle, axes in the order R, T, N and their rates. */
  datatype Covariance = Covariance(
    cr_r: Option<real>, ct_r: Option<real>, ct_t: Option<real>,
    cn_r: Option<real>, cn_t: Option<real>, cn_n: Option<real>,
    crd_r: Option<real>, crd_t: Option<real>, crd_n: Option<real>, crd_rd: Option<real>,
    ctd_r: Option<real>, ctd_t: Option<real>, ctd_n: Option<real>, ctd_rd: Option<real>, ctd_td: Option<real>,
    cnd_r: Option<real>, cnd_t: Option<real>, cnd_n: Option<real>,
    cnd_rd: Option<real>, cnd_td: Option<real>, cnd_nd: Option<real>)

  function Var(s: Option<real>): Option<real> {
    if s.Some? then Some(Sq(s.value)) else None
  }

  function Cov(c: Option<real>, a: Option<real>, b: Option<real>): Option<real> {
    if c.None? || a.None? || b.None? then None else Some(Prod3(c.value, a.value, b.value))
  }

  function Prod3(r: real, a: real, b: real): real { r * a * b }

  function ToCovariance(w: Raw): Covariance {
    Covariance(
      Var(w.sr), Cov(w.t_r, w.st, w.sr), Var(w.st),
      Cov(w.n_r, w.sn, w.sr), Cov(w.n_t, w.sn, w.st), Var(w.sn),
      Cov(w.rd_r, w.srd, w.sr), Cov(w.rd_t, w.srd, w.st), Cov(w.rd_n, w.srd, w.sn), Var(w.srd),
      Cov(w.td_r, w.std, w.sr), Cov(w.td_t, w.std, w.st), Cov(w.td_n, w.std, w.sn), Cov(w.td_rd, w.std, w.srd),
      Var(w.std),
      Cov(w.nd_r, w.snd, w.sr), Cov(w.nd_t, w.snd, w.st), Cov(w.nd_n, w.snd, w.sn), Cov(w.nd_rd, w.snd, w.srd),
      Cov(w.nd_td, w.snd, w.std), Var(w.snd))
  }

  // ---------- The records read as matrices ----------

  function Sigma(w: Raw, i: nat): Option<real> {
    if i == 0 then w.sr else if i == 1 then w.st else if i == 2 then w.sn
    else if i == 3 then w.srd else if i == 4 then w.std else w.snd
  }

  /** Entry of the symmetric correlation matrix; the diagonal is one. */
  function Rho(w: Raw, i: nat, j: nat): Option<real> {
    var a, b := if i < j then j else i, if i < j then i else j;
    if a == b then Some(1.0)
    else if a == 1 then w.t_r
    else if a == 2 then (if b == 0 then w.n_r else w.n_t)
    else if a == 3 then (if b == 0 then w.rd_r else if b == 1 then w.rd_t else w.rd_n)
    else if a == 4 then (if b == 0 then w.td_r else if b == 1 then w.td_t else if b == 2 then w.td_n else w.td_rd)
    else (if b == 0 then w.nd_r else if b == 1 then w.nd_t else if b == 2 then w.nd_n
          else if b == 3 then w.nd_rd else w.nd_td)
  }

  /** Entry of the symmetric covariance matrix the record stands for. */
  function Entry(c: Covariance, i: nat, j: nat): Option<real> {
    var a, b := if i < j then j else i, if i < j then i else j;
    if a == 0 then c.cr_r
    else if a == 1 then (if b == 0 then c.ct_r else c.ct_t)
    else if a == 2 then (if b == 0 then c.cn_r else if b == 1 then c.cn_t else c.cn_n)
    else if a == 3 then (if b == 0 then c.crd_r else if b == 1 then c.crd_t else if b == 2 then c.crd_n else c.crd_rd)
    else if a == 4 then
      (if b == 0 then c.ctd_r else if b == 1 then c.ctd_t else if b == 2 then c.ctd_n
       else if b == 3 then c.ctd_rd else c.ctd_td)
    else
      (if b == 0 then c.cnd_r else if b == 1 then c.cnd_t else if b == 2 then c.cnd_n
       else if b == 3 then c.cnd_rd else if b == 4 then c.cnd_td else c.cnd_nd)
  }

  predicate Complete(w: Raw) {
    && (forall i: nat :: i < 6 ==> Sigma(w, i).Some?)
    && (forall i: nat, j: nat :: i < 6 && j < 6 ==> Rho(w, i, j).Some?)
  }

  /** Entry (i, j) is the correlation times the two sigmas, and is missing exactly when one of them is. */
  lemma EntriesAreScaledCorrelations(w: Raw, i: nat, j: nat)
    requires i < 6 && j < 6
    ensures var r, a, b := Rho(w, i, j), Sigma(w, i), Sigma(w, j);
      Entry(ToCovariance(w), i, j) ==
      if r.None? || a.None? || b.None? then None else Some(Prod3(r.value, a.value, b.value))
  {
    var r, a, b := Rho(w, i, j), Sigma(w, i), Sigma(w, j);
    if i == j {
      assert Entry(ToCovariance(w), i, j) == Var(a);
      if a.Some? {
        Prod3One(a.value);
      }
    } else if i > j {
      LowerEntries(w, i, j);
    } else {
      LowerEntries(w, j, i);
      assert Rho(w, j, i) == r && Entry(ToCovariance(w), j, i) == Entry(ToCovariance(w), i, j);
      if r.Some? && a.Some? && b.Some? {
        Prod3Swaps(r.value, b.value, a.value);
      }
    }
  }

  lemma LowerEntries(w: Raw, i: nat, j: nat)
    requires j < i < 6
    ensures Entry(ToCovariance(w), i, j) == Cov(Rho(w, i, j), Sigma(w, i), Sigma(w, j))
  {}

  lemma Prod3One(a: real)
    ensures Prod3(1.0, a, a) == Sq(a)
  {}

  lemma Prod3Swaps(r: real, a: real, b: real)
    ensures Prod3(r, a, b) == Prod3(r, b, a)
  {}

  // ---------- Positive semidefiniteness ----------

  function Sum(f: nat -> real, n: nat): real {
    if n == 0 then 0.0 else Sum(f, n - 1) + f(n - 1)
  }

  lemma {:induction false} SumEqual(f: nat -> real, g: nat -> real, n: nat)
    requires forall i: nat :: i < n ==> f(i) == g(i)
    ensures Sum(f, n) == Sum(g, n)
  {
    if n > 0 {
      SumEqual(f, g, n - 1);
    }
  }

  type Matrix = (nat, nat) -> real
  type Vector = nat -> real

  function RowTerm(a: Matrix, x: Vector, i: nat): nat -> real {
    (j: nat) => Prod3(a(i, j), x(i), x(j))
  }

  /** x . (A x) over the first n coordinates. */
  function QuadForm(a: Matrix, x: Vector, n: nat): real {
    Sum((i: nat) => Sum(RowTerm(a, x, i), n), n)
  }

  ghost predicate PsdN(a: Matrix, n: nat) {
    && (forall i: nat, j: nat :: i < n && j < n ==> a(i, j) == a(j, i))
    && (forall x: Vector :: QuadForm(a, x, n) >= 0.0)
  }

  function Correlations(w: Raw): Matrix {
    (i: nat, j: nat) => if Rho(w, i, j).Some? then Rho(w, i, j).value else 0.0
  }

  function Covariances(w: Raw): Matrix {
    (i: nat, j: nat) => if Entry(ToCovariance(w), i, j).Some? then Entry(ToCovariance(w), i, j).value else 0.0
  }

  function Scaled(w: Raw, x: Vector): Vector {
    (i: nat) => (if Sigma(w, i).Some? then Sigma(w, i).value else 0.0) * x(i)
  }

  /** The covariance form at x is the correlation form at x scaled by the sigmas. */
  lemma CovarianceForm(w: Raw, x: Vector)
    requires Complete(w)
    ensures QuadForm(Covariances(w), x, 6) == QuadForm(Correlations(w), Scaled(w, x), 6)
  {
    var c, r, y := Covariances(w), Correlations(w), Scaled(w, x);
    forall i: nat | i < 6
      ensures Sum(RowTerm(c, x, i), 6) == Sum(RowTerm(r, y, i), 6)
    {
      forall j: nat | j < 6
        ensures RowTerm(c, x, i)(j) == RowTerm(r, y, i)(j)
      {
        EntriesAreScaledCorrelations(w, i, j);
        assert Sigma(w, i).Some? && Sigma(w, j).Some? && Rho(w, i, j).Some?;
        var rho, a, b := Rho(w, i, j).value, Sigma(w, i).value, Sigma(w, j).value;
        MoveFactors(rho, a, b, x(i), x(j), c(i, j), y(i), y(j));
      }
      SumEqual(RowTerm(c, x, i), RowTerm(r, y, i), 6);
    }
    SumEqual((i: nat) => Sum(RowTerm(c, x, i), 6), (i: nat) => Sum(RowTerm(r, y, i), 6), 6);
  }

  lemma MoveFactors(rho: real, a: real, b: real, p: real, q: real, c: real, u: real, v: real)
    requires c == Prod3(rho, a, b) && u == a * p && v == b * q
    ensures Prod3(c, p, q) == Prod3(rho, u, v)
  {
    assert c * p * q == rho * (a * p) * (b * q);
  }

  predicate NonzeroSigmas(w: Raw) {
    forall i: nat :: i < 6 && Sigma(w, i).Some? ==> Sigma(w, i).value != 0.0
  }

  /** A positive semidefinite correlation matrix gives a positive semidefinite covariance, whatever the
      signs of the sigmas. */
  lemma CovarianceIsPsd(w: Raw)
    requires Complete(w) && PsdN(Correlations(w), 6)
    ensures PsdN(Covariances(w), 6)
  {
    forall x: Vector
      ensures QuadForm(Covariances(w), x, 6) >= 0.0
    {
      CovarianceForm(w, x);
    }
  }

  /** When no sigma is zero nothing but a positive semidefinite correlation matrix does. */
  lemma OnlyPsdCorrelationsWork(w: Raw)
    requires Complete(w) && NonzeroSigmas(w) && PsdN(Covariances(w), 6)
    ensures PsdN(Correlations(w), 6)
  {
    forall y: Vector
      ensures QuadForm(Correlations(w), y, 6) >= 0.0
    {
      var x := Unscaled(w, y);
      CovarianceForm(w, x);
      assert QuadForm(Covariances(w), x, 6) >= 0.0;
      forall i: nat | i < 6
        ensures Scaled(w, x)(i) == y(i)
      {
        UnscaledScales(w, y, i);
      }
      SameForm(Correlations(w), Scaled(w, x), y, 6);
    }
  }

  lemma UnscaledScales(w: Raw, y: Vector, i: nat)
    requires Sigma(w, i).Some? && Sigma(w, i).value != 0.0
    ensures Scaled(w, Unscaled(w, y))(i) == y(i)
  {}

  function Unscaled(w: Raw, y: Vector): Vector {
    (i: nat) => if Sigma(w, i).None? || Sigma(w, i).value == 0.0 then 0.0 else y(i) / Sigma(w, i).value
  }

  lemma SameForm(a: Matrix, x: Vector, y: Vector, n: nat)
    requires forall i: nat :: i < n ==> x(i) == y(i)
    ensures QuadForm(a, x, n) == QuadForm(a, y, n)
  {
    forall i: nat | i < n
      ensures Sum(RowTerm(a, x, i), n) == Sum(RowTerm(a, y, i), n)
    {
      SumEqual(RowTerm(a, x, i), RowTerm(a, y, i), n);
    }
    SumEqual((i: nat) => Sum(RowTerm(a, x, i), n), (i: nat) => Sum(RowTerm(a, y, i), n), n);
  }

  // ---------- Into the encounter plane ----------

  function PositionPart(c: Covariance): EncounterPlane.PositionCov {
    EncounterPlane.PositionCov(c.cr_r, c.ct_r, c.ct_t, c.cn_r, c.cn_t, c.cn_n)
  }

  function Padded(v: V3): Vector {
    (i: nat) => if i == 0 then v.x else if i == 1 then v.y else if i == 2 then v.z else 0.0
  }

  /** The position block of a positive semidefinite 6x6 covariance is a valid input of the encounter-plane
      computation. */
  lemma PositionBlockIsPsd(w: Raw)
    requires Complete(w) && PsdN(Covariances(w), 6)
    ensures EncounterPlane.PositionCovRtn(PositionPart(ToCovariance(w))).Some?
    ensures Psd(EncounterPlane.PositionCovRtn(PositionPart(ToCovariance(w))).value)
  {
    forall i: nat, j: nat | i < 6 && j < 6
      ensures Entry(ToCovariance(w), i, j).Some?
    {
      EntriesAreScaledCorrelations(w, i, j);
      assert Sigma(w, i).Some? && Sigma(w, j).Some? && Rho(w, i, j).Some?;
    }
    var c := ToCovariance(w);
    assert Entry(c, 0, 0).Some? && Entry(c, 1, 0).Some? && Entry(c, 1, 1).Some?;
    assert Entry(c, 2, 0).Some? && Entry(c, 2, 1).Some? && Entry(c, 2, 2).Some?;
    var m := EncounterPlane.PositionCovRtn(PositionPart(ToCovariance(w))).value;
    forall v: V3
      ensures Quad(m, v) >= 0.0
    {
      PaddedForm(Covariances(w), m, v);
      assert QuadForm(Covariances(w), Padded(v), 6) >= 0.0;
    }
  }

  lemma PaddedForm(a: Matrix, m: M3, v: V3)
    requires m == M3(V3(a(0, 0), a(0, 1), a(0, 2)), V3(a(1, 0), a(1, 1), a(1, 2)), V3(a(2, 0), a(2, 1), a(2, 2)))
    ensures QuadForm(a, Padded(v), 6) == Quad(m, v)
  {
    var x := Padded(v);
    PaddedRow(a, x, 0);
    PaddedRow(a, x, 1);
    PaddedRow(a, x, 2);
    PaddedRow(a, x, 3);
    PaddedRow(a, x, 4);
    PaddedRow(a, x, 5);
    var f := (i: nat) => Sum(RowTerm(a, x, i), 6);
    assert Sum(f, 6) == f(0) + f(1) + f(2) + f(3) + f(4) + f(5) by { SumSix(f); }
    RowFactor(v.x, m.r1, v, f(0));
    RowFactor(v.y, m.r2, v, f(1));
    RowFactor(v.z, m.r3, v, f(2));
  }

  lemma RowFactor(k: real, r: V3, v: V3, total: real)
    requires total == Prod3(r.x, k, v.x) + Prod3(r.y, k, v.y) + Prod3(r.z, k, v.z)
    ensures total == k * Dot(r, v)
  {}

  lemma SumSix(f: nat -> real)
    ensures Sum(f, 6) == f(0) + f(1) + f(2) + f(3) + f(4) + f(5)
  {
    assert Sum(f, 4) == Sum(f, 2) + f(2) + f(3);
    assert Sum(f, 6) == Sum(f, 4) + f(4) + f(5);
  }

  lemma PaddedRow(a: Matrix, x: Vector, i: nat)
    requires i < 6 && x(3) == x(4) == x(5) == 0.0
    ensures Sum(RowTerm(a, x, i), 6) ==
            Prod3(a(i, 0), x(i), x(0)) + Prod3(a(i, 1), x(i), x(1)) + Prod3(a(i, 2), x(i), x(2))
    ensures i >= 3 ==> Sum(RowTerm(a, x, i), 6) == 0.0
  {
    SumSix(RowTerm(a, x, i));
  }
}
