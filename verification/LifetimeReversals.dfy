/** Inputs for which the hundred-year cap reverses the order of lifetimes: more solar flux lengthens a
    life, and the clearing milestones of a debris cloud run backwards.  The root is a square root, the
    exponential turns sums into products; each is bounded numerically where it is used. */
module LifetimeReversals {
  import opened Prelude
  import opened OrbitalLifetime

  // ---------- Geometric sums ----------

  function Pow(q: real, n: nat): real {
    if n == 0 then 1.0 else Times(q, Pow(q, n - 1))
  }

  /** 1 + q + ... + q^(n-1) */
  function Geo(q: real, n: nat): real {
    if n == 0 then 0.0 else 1.0 + Times(q, Geo(q, n - 1))
  }

  lemma {:induction false} GeoClosed(q: real, n: nat)
    ensures Times(1.0 - q, Geo(q, n)) == 1.0 - Pow(q, n)
  {
    if n > 0 {
      GeoClosed(q, n - 1);
      var g, p := Geo(q, n - 1), Pow(q, n - 1);
      assert (1.0 - q) * (1.0 + q * g) == 1.0 - q + q * ((1.0 - q) * g);
    }
  }

  lemma {:induction false} PowAdds(q: real, m: nat, n: nat)
    ensures Pow(q, m + n) == Times(Pow(q, m), Pow(q, n))
  {
    if m > 0 {
      PowAdds(q, m - 1, n);
      TimesSwap(q, Pow(q, m - 1), Pow(q, n));
      assert Pow(q, m + n) == Times(q, Pow(q, m - 1 + n));
    }
  }

  lemma PowDouble(q: real, n: nat, lo: real, hi: real, lo2: real, hi2: real)
    requires 0.0 <= lo <= Pow(q, n) <= hi
    requires lo2 <= lo * lo && hi * hi <= hi2
    ensures lo2 <= Pow(q, 2 * n) <= hi2
  {
    PowAdds(q, n, n);
    OrderTimes(lo, Pow(q, n), lo);
    OrderTimes(lo, Pow(q, n), Pow(q, n));
    OrderTimes(Pow(q, n), hi, Pow(q, n));
    OrderTimes(Pow(q, n), hi, hi);
  }

  lemma PowThree(q: real)
    ensures Pow(q, 1) == q && Pow(q, 2) == q * q && Pow(q, 3) == q * (q * q)
  {
    assert Pow(q, 1) == Times(q, Pow(q, 0));
    assert Pow(q, 2) == Times(q, Pow(q, 1));
    assert Pow(q, 3) == Times(q, Pow(q, 2));
  }

  // ---------- The first steps of the loop ----------

  /** Seconds spent in the first n kilometres. */
  function Spent(step: StepTime, h: real, n: nat): real
    decreases n
  {
    if n == 0 then 0.0 else (if step(h).Some? then step(h).value else 0.0) + Spent(step, h - 1.0, n - 1)
  }

  /** n steps with drag, each between lo and hi times the one before. */
  ghost predicate Shrinks(step: StepTime, h: real, n: nat, lo: real, hi: real)
    decreases n
  {
    n > 0 ==>
    && step(h).Some? && step(h).value > 0.0
    && Shrinks(step, h - 1.0, n - 1, lo, hi)
    && (n > 1 ==> Times(lo, step(h).value) <= step(h - 1.0).value <= Times(hi, step(h).value))
  }

  lemma {:induction false} SpentBounds(step: StepTime, h: real, n: nat, lo: real, hi: real)
    requires n > 0 && Shrinks(step, h, n, lo, hi) && 0.0 < lo <= hi
    ensures Times(step(h).value, Geo(lo, n)) <= Spent(step, h, n) <= Times(step(h).value, Geo(hi, n))
    ensures Geo(lo, n) >= 1.0 && Geo(hi, n) >= 1.0
    decreases n
  {
    var s := step(h).value;
    if n == 1 {
      GeoOne(lo);
      GeoOne(hi);
      assert Spent(step, h, 1) == s + Spent(step, h - 1.0, 0) == s;
    } else {
      SpentBounds(step, h - 1.0, n - 1, lo, hi);
      var rest, s', g, k := Spent(step, h - 1.0, n - 1), step(h - 1.0).value, Geo(lo, n - 1), Geo(hi, n - 1);
      assert Spent(step, h, n) == s + rest;
      TermBounds(s, s', rest, lo, g, hi, k);
      assert Geo(lo, n) == 1.0 + Times(lo, g) && Geo(hi, n) == 1.0 + Times(hi, k);
    }
  }

  lemma GeoOne(q: real)
    ensures Geo(q, 1) == 1.0
  {
    assert Geo(q, 1) == 1.0 + Times(q, Geo(q, 0));
  }

  lemma TermBounds(s: real, s': real, rest: real, lo: real, g: real, hi: real, k: real)
    requires 0.0 < lo <= hi && g >= 1.0 && k >= 1.0
    requires Times(lo, s) <= s' <= Times(hi, s) && Times(s', g) <= rest <= Times(s', k)
    ensures Times(s, 1.0 + Times(lo, g)) <= s + rest <= Times(s, 1.0 + Times(hi, k))
    ensures Times(lo, g) >= 0.0 && Times(hi, k) >= 0.0
  {
    AtLeastOneMore(s, s', rest, lo, g);
    AtMostOneMore(s, s', rest, hi, k);
  }

  lemma AtLeastOneMore(s: real, s': real, rest: real, lo: real, g: real)
    requires 0.0 < lo && g >= 1.0 && Times(lo, s) <= s' && Times(s', g) <= rest
    ensures Times(s, 1.0 + Times(lo, g)) <= s + rest && Times(lo, g) >= 0.0
  {
    OrderTimes(Times(lo, s), s', g);
    OneMoreTerm(s, lo, g);
    ProductSign(lo, g, Times(lo, g));
  }

  lemma AtMostOneMore(s: real, s': real, rest: real, hi: real, k: real)
    requires 0.0 < hi && k >= 1.0 && s' <= Times(hi, s) && rest <= Times(s', k)
    ensures s + rest <= Times(s, 1.0 + Times(hi, k)) && Times(hi, k) >= 0.0
  {
    OrderTimes(s', Times(hi, s), k);
    OneMoreTerm(s, hi, k);
    ProductSign(hi, k, Times(hi, k));
  }

  lemma OneMoreTerm(s: real, q: real, g: real)
    ensures s + Times(Times(q, s), g) == Times(s, 1.0 + Times(q, g))
  {
    assert (q * s) * g == s * (q * g);
  }

  lemma {:induction false} SpentAppend(step: StepTime, h: real, n: nat)
    ensures Spent(step, h, n + 1) ==
            Spent(step, h, n) + if step(h - n as real).Some? then step(h - n as real).value else 0.0
    decreases n
  {
    if n > 0 {
      SpentAppend(step, h - 1.0, n - 1);
      assert h - 1.0 - (n - 1) as real == h - n as real;
    }
  }

  /** n steps within the cap and one more beyond it end the loop. */
  lemma {:induction false} EndsBeyondCap(step: StepTime, h: real, low: real, n: nat, total: real, lo: real, hi: real)
    requires Shrinks(step, h, n + 1, lo, hi) && h - n as real > low
    requires total + Spent(step, h, n) <= CAP_SECONDS < total + Spent(step, h, n + 1)
    ensures Descend(step, h, low, total) == (total + Spent(step, h, n + 1)) / DAY
    decreases n
  {
    var s := step(h).value;
    if n > 0 {
      assert Spent(step, h, n) == s + Spent(step, h - 1.0, n - 1);
      SpentPositive(step, h - 1.0, n - 1, lo, hi);
      EndsBeyondCap(step, h - 1.0, low, n - 1, total + s, lo, hi);
    } else {
      assert Spent(step, h, 1) == s + Spent(step, h - 1.0, 0);
    }
  }

  lemma {:induction false} SpentPositive(step: StepTime, h: real, n: nat, lo: real, hi: real)
    requires Shrinks(step, h, n + 1, lo, hi)
    ensures Spent(step, h, n) >= 0.0
    decreases n
  {
    if n > 0 {
      SpentPositive(step, h - 1.0, n - 1, lo, hi);
    }
  }

  // ---------- The step times themselves ----------

  /** Sums become products. */
  ghost predicate Exponential(exp: real -> real) {
    Positive(exp) && forall x, y, z :: z == x + y ==> exp(z) == Times(exp(x), exp(y))
  }

  const LO := 0.996274
  const HI := 0.996347

  /** The root and the exponential, with its value at one scale height's kilometre. */
  ghost predicate Physical(m: Maths) {
    && IsRoot(m.sqrt) && Exponential(m.exp)
    && 1.003738 <= m.exp(1.0 / 268.0) <= 1.003739
  }

  function Axis(h: real): real { (EARTH_RADIUS_KM + h) * 1000.0 }

  /** Fall of the air density above 1000 km. */
  function Fall(exp: real -> real, h: real): real { exp(-(h - 1000.0) / 268.0) }

  function Air(m: Maths, h: real, flux: real): real {
    Times(0.000000000000003019 * Fall(m.exp, h), SolarFactor(flux))
  }

  /** The orbital period over 2 pi a^2. */
  function Slowness(sqrt: real -> real, a: real): real
    requires a > 0.0
  {
    sqrt(a * a * a / MU) / (a * a)
  }

  lemma HighDensity(exp: real -> real, h: real)
    requires h > 1000.0
    ensures Density(exp, h) == 0.000000000000003019 * Fall(exp, h)
  {}

  lemma SlownessSquared(sqrt: real -> real, a: real)
    requires IsRoot(sqrt) && a > 0.0
    ensures Slowness(sqrt, a) >= 0.0 && Times(Sq(Slowness(sqrt, a)), MU * a) == 1.0
  {
    var w, x := a * a, a * a * a / MU;
    ProductPositive(a, a, w);
    ProductPositive(w, a, w * a);
    assert x * MU == w * a;
    assert x >= 0.0;
    var p, u := sqrt(x), Slowness(sqrt, a);
    assert Sq(sqrt(x)) == x;
    assert u * w == p;
    SquareOfQuotient(u, w, p, x, a);
    assert u >= 0.0;
  }

  lemma SquareOfQuotient(u: real, w: real, p: real, x: real, a: real)
    requires w > 0.0 && a > 0.0 && u * w == p && Sq(p) == x && x * MU == w * a && w == a * a
    ensures Times(Sq(u), MU * a) == 1.0
  {
    var y := u * u;
    assert Sq(p) == y * (w * w);
    assert y * (w * w) * MU == w * a;
    CancelEqual(y * w * MU, a, w);
    assert y * w * MU == (y * (MU * a)) * a;
    CancelEqual(y * (MU * a), 1.0, a);
  }

  lemma CancelEqual(x: real, y: real, k: real)
    requires k > 0.0 && x * k == y * k
    ensures x == y
  {
    CancelOrder(x, y, k);
    CancelOrder(y, x, k);
  }

  lemma SlownessBounds(sqrt: real -> real, a: real, lo: real, hi: real)
    requires IsRoot(sqrt) && a > 0.0 && 0.0 <= lo && 0.0 <= hi
    requires lo * lo * (MU * a) <= 1.0 <= hi * hi * (MU * a)
    ensures lo <= Slowness(sqrt, a) <= hi
  {
    var u, k := Slowness(sqrt, a), MU * a;
    SlownessSquared(sqrt, a);
    CancelOrder(Sq(lo), Sq(u), k);
    CancelOrder(Sq(u), Sq(hi), k);
    SquareOrder(lo, u);
    SquareOrder(u, hi);
  }

  lemma CancelOrder(x: real, y: real, k: real)
    requires k > 0.0 && x * k <= y * k
    ensures x <= y
  {
    if x > y {
      ProductPositive(x - y, k, (x - y) * k);
    }
  }

  /** A kilometre lower the slowness grows by less than 0.007 per cent. */
  lemma SlownessRatio(sqrt: real -> real, a: real, b: real)
    requires IsRoot(sqrt) && 8000000.0 <= b && a == b + 1000.0
    ensures Slowness(sqrt, a) <= Slowness(sqrt, b) <= 1.00007 * Slowness(sqrt, a)
  {
    var u, v, k := Slowness(sqrt, a), Slowness(sqrt, b), MU * b;
    SlownessSquared(sqrt, a);
    SlownessSquared(sqrt, b);
    SquarePositiveOrZero(u);
    OrderTimes(k, MU * a, Sq(u));
    CancelOrder(Sq(u), Sq(v), k);
    SquareOrder(u, v);
    var w := 1.00007 * u;
    assert Sq(w) == 1.0001400049 * Sq(u);
    OrderTimes(MU * a, 1.0001400049 * k, Sq(u));
    assert Sq(w) * k == Sq(u) * (1.0001400049 * k);
    CancelOrder(Sq(v), Sq(w), k);
    SquareOrder(v, w);
  }

  lemma SquarePositiveOrZero(x: real)
    ensures Sq(x) >= 0.0
  {}

  /** Inputs of the reversals: heights of 1600 to 2000 km, moderate flux, ballistic coefficients up to 100. */
  ghost predicate Usual(m: Maths, h: real, bc: real, flux: real) {
    1600.0 <= h <= 2000.0 && 0.0 < bc <= 100.0 && 0.5 <= SolarFactor(flux) && Fall(m.exp, h) >= 0.01
  }

  lemma AirIsDense(m: Maths, h: real, bc: real, flux: real)
    requires Usual(m, h, bc, flux)
    ensures Air(m, h, flux) >= 0.00000000000000001
  {
    OrderTimes(0.5, SolarFactor(flux), 0.000000000000003019 * Fall(m.exp, h));
  }

  /** v is the time for the kilometre below h, in closed form. */
  ghost predicate Kilometre(m: Maths, h: real, bc: real, flux: real, v: real) {
    Axis(h) > 0.0 && v > 0.0 && Times(v, Air(m, h, flux)) == Times(1000.0 * bc, Slowness(m.sqrt, Axis(h)))
  }

  /** The step times follow the closed form over the altitudes of the reversals. */
  ghost predicate Closed(step: StepTime, m: Maths, bc: real, flux: real) {
    forall h {:trigger step(h)} :: Usual(m, h, bc, flux) ==> step(h).Some? && Kilometre(m, h, bc, flux, step(h).value)
  }

  lemma StepsAreClosed(m: Maths, bc: real, flux: real)
    requires Physical(m) && bc > 0.0
    ensures Closed(StepFor(m, bc, flux), m, bc, flux)
  {
    forall h | Usual(m, h, bc, flux)
      ensures StepFor(m, bc, flux)(h).Some? && Kilometre(m, h, bc, flux, StepFor(m, bc, flux)(h).value)
    {
      StepIsKilometre(m, h, bc, flux);
      KilometreIsLong(m, h, bc, flux, StepFor(m, bc, flux)(h));
    }
  }

  lemma KilometreIsLong(m: Maths, h: real, bc: real, flux: real, step: Option<real>)
    requires Physical(m) && Usual(m, h, bc, flux)
    requires var loss := LossPerOrbit(Air(m, h, flux), Axis(h), bc);
      step == if loss < NEGLIGIBLE then None else Some(KilometreTime(loss, Period(m, Axis(h))))
    ensures step.Some? && Kilometre(m, h, bc, flux, step.value)
  {
    var loss := LossPerOrbit(Air(m, h, flux), Axis(h), bc);
    AirIsDense(m, h, bc, flux);
    LossIsLarge(Air(m, h, flux), Axis(h), bc, loss);
    KilometreIsClosed(m, Air(m, h, flux), Axis(h), bc, loss, KilometreTime(loss, Period(m, Axis(h))));
  }

  lemma KilometreIsClosed(m: Maths, rho: real, a: real, bc: real, loss: real, v: real)
    requires IsRoot(m.sqrt) && rho > 0.0 && a > 0.0 && bc > 0.0 && loss > 0.0
    requires loss * bc == 2.0 * PI * (rho * (a * a)) && a * a > 0.0
    requires v == KilometreTime(loss, Period(m, a))
    ensures v > 0.0 && Times(v, rho) == Times(1000.0 * bc, Slowness(m.sqrt, a))
  {
    var u := Slowness(m.sqrt, a);
    SlownessNonzero(m.sqrt, a);
    SlownessTimesArea(m.sqrt, a);
    StepAlgebra(rho, a * a, bc, loss, m.sqrt(a * a * a / MU), u, v);
    ProductPositive(1000.0 * bc, u, 1000.0 * bc * u);
    PositiveFactor(v, rho);
  }

  lemma StepIsKilometre(m: Maths, h: real, bc: real, flux: real)
    requires h > 1000.0 && bc > 0.0
    ensures var loss := LossPerOrbit(Air(m, h, flux), Axis(h), bc);
      StepFor(m, bc, flux)(h) == if loss < NEGLIGIBLE then None else Some(KilometreTime(loss, Period(m, Axis(h))))
  {
    HighDensity(m.exp, h);
  }

  lemma SlownessTimesArea(sqrt: real -> real, a: real)
    requires a > 0.0
    ensures Slowness(sqrt, a) * (a * a) == sqrt(a * a * a / MU)
  {}

  lemma SlownessNonzero(sqrt: real -> real, a: real)
    requires IsRoot(sqrt) && a > 0.0
    ensures Slowness(sqrt, a) > 0.0
  {
    SlownessSquared(sqrt, a);
    NonzeroRoot(Slowness(sqrt, a), MU * a);
  }

  lemma NonzeroRoot(u: real, k: real)
    requires u >= 0.0 && Times(Sq(u), k) == 1.0
    ensures u > 0.0
  {}

  lemma PositiveFactor(x: real, k: real)
    requires k > 0.0 && Times(x, k) > 0.0
    ensures x > 0.0
  {
    if x <= 0.0 {
      OrderTimes(x, 0.0, k);
    }
  }

  lemma LossIsLarge(rho: real, a: real, bc: real, loss: real)
    requires rho >= 0.00000000000000001 && a >= 7000000.0 && 0.0 < bc <= 100.0
    requires loss == LossPerOrbit(rho, a, bc)
    ensures loss >= NEGLIGIBLE && loss * bc == 2.0 * PI * (rho * (a * a)) && a * a > 0.0
  {
    var w, x := a * a, 2.0 * PI * rho * a * a;
    OrderTimes(7000000.0, a, 7000000.0);
    OrderTimes(7000000.0, a, a);
    assert x == (2.0 * PI) * (rho * w);
    OrderTimes(0.00000000000000001, rho, w);
    assert x >= 0.003;
    assert loss * bc == x;
    OrderTimes(bc, 100.0, NEGLIGIBLE);
    CancelOrder(NEGLIGIBLE, loss, bc);
  }

  lemma StepAlgebra(rho: real, w: real, bc: real, loss: real, p: real, u: real, v: real)
    requires rho > 0.0 && w > 0.0 && bc > 0.0 && loss > 0.0
    requires loss * bc == 2.0 * PI * (rho * w) && u * w == p && v == 1000.0 / loss * (2.0 * PI * p)
    ensures Times(v, rho) == 1000.0 * bc * u
  {
    var q := 1000.0 / loss;
    assert q * loss == 1000.0;
    assert v == q * (2.0 * PI * p);
    assert q * (loss * bc) == 1000.0 * bc;
    assert q * (2.0 * PI * (rho * w)) == 1000.0 * bc;
    assert v * rho == (q * (2.0 * PI * (rho * w))) * u;
  }

  /** A kilometre lower the step is shorter by between 0.3653 and 0.3726 per cent. */
  lemma OneLower(m: Maths, h: real, bc: real, flux: real, v: real, v': real)
    requires Physical(m) && Usual(m, h, bc, flux) && 8000000.0 <= Axis(h - 1.0)
    requires Kilometre(m, h, bc, flux, v) && Kilometre(m, h - 1.0, bc, flux, v')
    ensures 0.996274 * v <= v' <= 0.996347 * v
  {
    var g := m.exp(1.0 / 268.0);
    FallLower(m, h);
    SlownessRatio(m.sqrt, Axis(h), Axis(h - 1.0));
    SlownessNonzero(m.sqrt, Axis(h));
    AirIsDense(m, h, bc, flux);
    AirLower(Fall(m.exp, h), g, SolarFactor(flux), Air(m, h, flux), Air(m, h - 1.0, flux));
    RatioAlgebra(1000.0 * bc, Air(m, h, flux), Air(m, h - 1.0, flux), g,
                 Slowness(m.sqrt, Axis(h)), Slowness(m.sqrt, Axis(h - 1.0)), v, v');
  }

  lemma FallLower(m: Maths, h: real)
    requires Physical(m)
    ensures Fall(m.exp, h - 1.0) == Times(Fall(m.exp, h), m.exp(1.0 / 268.0))
    ensures Fall(m.exp, h - 1.0) >= Fall(m.exp, h)
  {
    var x, y, z := -(h - 1000.0) / 268.0, 1.0 / 268.0, -(h - 1.0 - 1000.0) / 268.0;
    assert z == x + y;
    assert m.exp(z) == Times(m.exp(x), m.exp(y));
    assert m.exp(x) > 0.0;
    GrowsBy(m.exp(x), m.exp(y));
  }

  lemma GrowsBy(x: real, g: real)
    requires x >= 0.0 && g >= 1.0
    ensures Times(x, g) >= x
  {
    OrderTimes(1.0, g, x);
  }

  lemma AirLower(fall: real, g: real, f: real, rho: real, rho': real)
    requires rho == Times(0.000000000000003019 * fall, f)
    requires rho' == Times(0.000000000000003019 * Times(fall, g), f)
    ensures rho' == Times(rho, g)
  {
    TimesSwap(f, fall, g);
    ScaledTimes(fall, f);
    ScaledTimes(Times(fall, g), f);
    SameFactor(Times(f, fall), g, rho, rho');
  }

  lemma ScaledTimes(x: real, f: real)
    ensures Times(0.000000000000003019 * x, f) == 0.000000000000003019 * Times(f, x)
    ensures Times(f, x) == Times(x, f)
  {}

  lemma SameFactor(x: real, g: real, rho: real, rho': real)
    requires rho == 0.000000000000003019 * x && rho' == 0.000000000000003019 * Times(x, g)
    ensures rho' == Times(rho, g)
  {}

  lemma TimesSwap(a: real, b: real, c: real)
    ensures Times(a, Times(b, c)) == Times(Times(a, b), c) == Times(Times(a, c), b) == Times(Times(b, a), c)
  {}

  lemma RatioAlgebra(c: real, rho: real, rho': real, g: real, u: real, u': real, v: real, v': real)
    requires c > 0.0 && rho > 0.0 && 1.003738 <= g <= 1.003739 && rho' == Times(rho, g)
    requires 0.0 <= u <= u' <= 1.00007 * u && v > 0.0 && v' > 0.0
    requires Times(v, rho) == Times(c, u) && Times(v', rho') == Times(c, u')
    ensures 0.996274 * v <= v' <= 0.996347 * v
  {
    var w := Times(v', g);
    TimesSwap(v', rho, g);
    assert Times(w, rho) == Times(c, u');
    TimesOrder(c, u, u');
    CancelOrder(v, w, rho);
    CancelOrder(w, 1.00007 * v, rho);
    Squeeze(v, v', g, w);
  }

  lemma TimesOrder(c: real, u: real, u': real)
    requires c > 0.0 && u <= u' <= 1.00007 * u
    ensures Times(c, u) <= Times(c, u') <= 1.00007 * Times(c, u)
  {
    OrderTimes(u, u', c);
    OrderTimes(u', 1.00007 * u, c);
  }

  lemma Squeeze(v: real, v': real, g: real, w: real)
    requires 1.003738 <= g <= 1.003739 && w == Times(v', g) && v <= w <= 1.00007 * v && v' > 0.0
    ensures 0.996274 * v <= v' <= 0.996347 * v
  {
    OrderTimes(1.003738, g, v');
    OrderTimes(g, 1.003739, v');
    assert w == g * v';
    assert 1.003738 * v' <= w <= 1.003739 * v';
  }

  ghost predicate OneShrinks(step: StepTime, h: real) {
    && step(h).Some? && step(h - 1.0).Some? && step(h).value > 0.0
    && Times(LO, step(h).value) <= step(h - 1.0).value <= Times(HI, step(h).value)
  }

  function Below(h: real, i: nat): real { h - i as real }

  lemma {:induction false} AllShrink(step: StepTime, h: real, n: nat)
    requires forall i: nat :: i < n ==> OneShrinks(step, Below(h, i))
    ensures Shrinks(step, h, n, LO, HI)
    decreases n
  {
    if n > 0 {
      assert OneShrinks(step, Below(h, 0));
      var lower := h - 1.0;
      forall i: nat | i < n - 1
        ensures OneShrinks(step, Below(lower, i))
      {
        assert Below(lower, i) == Below(h, i + 1);
      }
      AllShrink(step, lower, n - 1);
    }
  }

  /** Above 1622 km every step the loop takes is shorter than the one before by about one 268th. */
  lemma StepsShrink(m: Maths, h: real, bc: real, flux: real, n: nat)
    requires Physical(m) && Usual(m, h, bc, flux) && h - n as real >= 1622.0
    ensures Shrinks(StepFor(m, bc, flux), h, n, LO, HI)
  {
    StepsAreClosed(m, bc, flux);
    ClosedStepsShrink(StepFor(m, bc, flux), m, h, bc, flux, n);
  }

  lemma ClosedStepsShrink(step: StepTime, m: Maths, h: real, bc: real, flux: real, n: nat)
    requires Physical(m) && Closed(step, m, bc, flux)
    requires Usual(m, h, bc, flux) && h - n as real >= 1622.0
    ensures Shrinks(step, h, n, LO, HI)
  {
    forall i: nat | i < n
      ensures OneShrinks(step, Below(h, i))
    {
      LowerIsUsual(m, h, bc, flux, i);
      LowerIsUsual(m, h, bc, flux, i + 1);
      StepShrinks(step, m, Below(h, i), bc, flux);
    }
    AllShrink(step, h, n);
  }

  lemma StepShrinks(step: StepTime, m: Maths, h: real, bc: real, flux: real)
    requires Physical(m) && Closed(step, m, bc, flux)
    requires Usual(m, h, bc, flux) && Usual(m, h - 1.0, bc, flux) && h >= 1623.0
    ensures OneShrinks(step, h)
  {
    OneLower(m, h, bc, flux, step(h).value, step(h - 1.0).value);
  }

  lemma {:induction false} LowerIsUsual(m: Maths, h: real, bc: real, flux: real, n: nat)
    requires Physical(m) && Usual(m, h, bc, flux) && h - n as real >= 1622.0
    ensures Usual(m, Below(h, n), bc, flux)
  {
    if n > 0 {
      LowerIsUsual(m, h, bc, flux, n - 1);
      FallLower(m, Below(h, n - 1));
      assert Below(h, n - 1) - 1.0 == Below(h, n);
    }
  }

  // ---------- More flux, longer life ----------

  /** The duration of the first step, from bounds on the air's fall and on the slowness. */
  lemma FirstStep(m: Maths, h: real, bc: real, flux: real, fallLo: real, fallHi: real, slowLo: real, slowHi: real,
                  lo: real, hi: real)
    requires Physical(m) && Usual(m, h, bc, flux) && Axis(h) > 0.0
    requires 0.0 < fallLo <= Fall(m.exp, h) <= fallHi
    requires 0.0 < slowLo <= Slowness(m.sqrt, Axis(h)) <= slowHi
    requires lo * (0.000000000000003019 * fallHi * SolarFactor(flux)) <= 1000.0 * bc * slowLo
    requires 1000.0 * bc * slowHi <= hi * (0.000000000000003019 * fallLo * SolarFactor(flux))
    requires 0.0 < lo && 0.0 < hi
    ensures StepFor(m, bc, flux)(h).Some? && lo <= StepFor(m, bc, flux)(h).value <= hi
  {
    StepsAreClosed(m, bc, flux);
    KilometreBounds(m, h, bc, flux, fallLo, fallHi, slowLo, slowHi, lo, hi, StepFor(m, bc, flux)(h).value);
  }

  lemma KilometreBounds(m: Maths, h: real, bc: real, flux: real, fallLo: real, fallHi: real, slowLo: real, slowHi: real,
                        lo: real, hi: real, v: real)
    requires Usual(m, h, bc, flux) && Kilometre(m, h, bc, flux, v)
    requires 0.0 < fallLo <= Fall(m.exp, h) <= fallHi
    requires 0.0 < slowLo <= Slowness(m.sqrt, Axis(h)) <= slowHi
    requires lo * (0.000000000000003019 * fallHi * SolarFactor(flux)) <= 1000.0 * bc * slowLo
    requires 1000.0 * bc * slowHi <= hi * (0.000000000000003019 * fallLo * SolarFactor(flux))
    requires 0.0 < lo && 0.0 < hi
    ensures lo <= v <= hi
  {
    AirIsDense(m, h, bc, flux);
    AirBounds(Fall(m.exp, h), fallLo, fallHi, SolarFactor(flux), Air(m, h, flux));
    StepBounds(1000.0 * bc, v, Air(m, h, flux), Slowness(m.sqrt, Axis(h)), slowLo, slowHi,
               0.000000000000003019 * fallLo * SolarFactor(flux), 0.000000000000003019 * fallHi * SolarFactor(flux),
               lo, hi);
  }

  lemma AirBounds(fall: real, lo: real, hi: real, f: real, rho: real)
    requires 0.0 < lo <= fall <= hi && f > 0.0 && rho == Times(0.000000000000003019 * fall, f)
    ensures 0.000000000000003019 * lo * f <= rho <= 0.000000000000003019 * hi * f
  {
    OrderTimes(0.000000000000003019 * lo, 0.000000000000003019 * fall, f);
    OrderTimes(0.000000000000003019 * fall, 0.000000000000003019 * hi, f);
  }

  lemma StepBounds(c: real, v: real, rho: real, u: real, slowLo: real, slowHi: real, airLo: real, airHi: real,
                   lo: real, hi: real)
    requires c > 0.0 && rho > 0.0 && airLo <= rho <= airHi && slowLo <= u <= slowHi
    requires Times(v, rho) == Times(c, u) && lo > 0.0 && hi > 0.0
    requires lo * airHi <= c * slowLo && c * slowHi <= hi * airLo
    ensures lo <= v <= hi
  {
    OrderTimes(rho, airHi, lo);
    OrderTimes(slowLo, u, c);
    CancelOrder(lo, v, rho);
    OrderTimes(airLo, rho, hi);
    OrderTimes(u, slowHi, c);
    assert v * rho <= c * slowHi <= hi * airLo <= hi * rho;
    CancelOrder(v, hi, rho);
  }

  /** At 1640 km and the default ballistic coefficient a flux of 150 ends life in the first kilometre, just
      beyond a hundred years; a flux of 160 shortens each kilometre, but just misses the cap with the
      first and overruns it with the whole second one. */
  lemma CapBreaksTheOrder(m: Maths)
    requires Physical(m) && 0.0918076 <= m.exp(-(1640.0 - 1000.0) / 268.0) <= 0.0918077
    ensures Lifetime(m, 1640.0, 50.0, 150.0, 120.0) < Lifetime(m, 1640.0, 50.0, 160.0, 120.0)
  {
    var quiet, active := StepFor(m, 50.0, 150.0), StepFor(m, 50.0, 160.0);
    SlownessBounds(m.sqrt, Axis(1640.0), 0.0000000000176886, 0.0000000000176887);
    FirstStep(m, 1640.0, 50.0, 150.0, 0.0918076, 0.0918077, 0.0000000000176886, 0.0000000000176887, 3190000000.0,
              3192000000.0);
    FirstStep(m, 1640.0, 50.0, 160.0, 0.0918076, 0.0918077, 0.0000000000176886, 0.0000000000176887, 3038000000.0,
              3040000000.0);
    StepsShrink(m, 1640.0, 50.0, 150.0, 1);
    StepsShrink(m, 1640.0, 50.0, 160.0, 2);
    OneStepLife(quiet, 1640.0, 120.0);
    TwoStepLife(active, 1640.0, 120.0);
  }

  lemma OneStepLife(step: StepTime, h: real, low: real)
    requires Shrinks(step, h, 1, LO, HI) && h > low && step(h).value > CAP_SECONDS
    ensures Descend(step, h, low, 0.0) == step(h).value / DAY
  {
    SpentBounds(step, h, 1, LO, HI);
    assert Spent(step, h, 1) == step(h).value + Spent(step, h - 1.0, 0);
    EndsBeyondCap(step, h, low, 0, 0.0, LO, HI);
  }

  lemma TwoStepLife(step: StepTime, h: real, low: real)
    requires Shrinks(step, h, 2, LO, HI) && h - 1.0 > low && 3000000000.0 <= step(h).value <= CAP_SECONDS
    ensures Descend(step, h, low, 0.0) >= 5900000000.0 / DAY
  {
    var v := step(h).value;
    assert Spent(step, h, 1) == v + Spent(step, h - 1.0, 0) == v;
    SpentBounds(step, h, 2, LO, HI);
    GeoOne(LO);
    assert Geo(LO, 2) == 1.0 + Times(LO, Geo(LO, 1)) == 1.996274;
    EndsBeyondCap(step, h, low, 1, 0.0, LO, HI);
  }

  // ---------- Milestones in reverse ----------

  lemma LowPower(a: nat) returns (n: nat)
    requires 0.98886359 <= Pow(LO, a) <= 0.98886360
    ensures n == 32 * a && 0.69881825 <= Pow(LO, n) <= 0.69881873
  {
    n := a;
    PowDouble(LO, n, 0.98886359, 0.98886360, 0.97785119, 0.97785122);
    n := 2 * n;
    PowDouble(LO, n, 0.97785119, 0.97785122, 0.95619294, 0.95619301);
    n := 2 * n;
    PowDouble(LO, n, 0.95619294, 0.95619301, 0.91430493, 0.91430508);
    n := 2 * n;
    PowDouble(LO, n, 0.91430493, 0.91430508, 0.83595350, 0.83595378);
    n := 2 * n;
    PowDouble(LO, n, 0.83595350, 0.83595378, 0.69881825, 0.69881873);
    n := 2 * n;
  }

  lemma HighPower(a: nat) returns (n: nat)
    requires 0.98908098 <= Pow(HI, a) <= 0.98908099
    ensures n == 32 * a && 0.70375119 <= Pow(HI, n) <= 0.70375164
  {
    n := a;
    PowDouble(HI, n, 0.98908098, 0.98908099, 0.97828118, 0.97828121);
    n := 2 * n;
    PowDouble(HI, n, 0.97828118, 0.97828121, 0.95703406, 0.95703413);
    n := 2 * n;
    PowDouble(HI, n, 0.95703406, 0.95703413, 0.91591419, 0.91591433);
    n := 2 * n;
    PowDouble(HI, n, 0.91591419, 0.91591433, 0.83889880, 0.83889906);
    n := 2 * n;
    PowDouble(HI, n, 0.83889880, 0.83889906, 0.70375119, 0.70375164);
    n := 2 * n;
  }

  lemma Cubes() returns (a: nat)
    ensures 0 < a < 6 && 0.98886359 <= Pow(LO, a) <= 0.98886360 && 0.98908098 <= Pow(HI, a) <= 0.98908099
  {
    a := 3;
    PowThree(LO);
    PowThree(HI);
  }

  lemma CancelLeast(k: real, g: real, r: real, c: real)
    requires k > 0.0 && Times(k, g) == c
    ensures Times(r, k) <= c ==> r <= g
    ensures c <= Times(r, k) ==> g <= r
  {
    if Times(r, k) <= c {
      CancelOrder(r, g, k);
    }
    if c <= Times(r, k) {
      CancelOrder(g, r, k);
    }
  }

  lemma NextPowers(q: real, n: nat)
    ensures Pow(q, n + 1) == Times(q, Pow(q, n)) && Pow(q, n + 2) == Times(q, Pow(q, n + 1))
  {}

  /** n fast-shrinking steps come to less than 81.81 first ones, n + 1 slow-shrinking ones to more than 82. */
  lemma StepCount() returns (n: nat)
    ensures 0 < n < 200 && Geo(HI, n) <= 81.81 && Geo(LO, n + 1) >= 82.0
  {
    var a := Cubes();
    var k := LowPower(a);
    var k' := HighPower(a);
    n := k + 1;
    NextPowers(LO, k);
    NextPowers(HI, k);
    GeoClosed(LO, n + 1);
    GeoClosed(HI, n);
    CancelLeast(1.0 - LO, Geo(LO, n + 1), 82.0, 1.0 - Pow(LO, n + 1));
    CancelLeast(1.0 - HI, Geo(HI, n), 81.81, 1.0 - Pow(HI, n));
    assert Pow(LO, n + 1) <= 0.6944;
    assert Pow(HI, n) >= 0.70116;
  }

  /** The size power law where the milestones use it. */
  ghost predicate SizeLaw(power: real -> real) {
    power(LARGEST) == 1.0 && power(SMALLEST) >= 28.0
  }

  /** Rounding to one decimal. */
  ghost predicate RoundsToTenth(round1: real -> real) {
    forall x: real :: x - 0.05 <= round1(x) <= x + 0.05
  }

  lemma TwiceRounded(round1: real -> real, x: real)
    requires RoundsToTenth(round1)
    ensures x - 0.1 <= round1(round1(x)) <= x + 0.1
  {
    assert round1(x) - 0.05 <= round1(round1(x)) <= round1(x) + 0.05;
  }

  /** A cloud at 1898 km under a flux of 97: the largest class passes a hundred years by a hair in its third
      kilometre, the smallest one by more in its 98th, so half the cloud is said to clear over forty days
      after all of it. */
  lemma ClearingOrderCanFail(m: Maths, power: real -> real, round1: real -> real)
    requires Physical(m) && 0.03505818 <= m.exp(-(1898.0 - 1000.0) / 268.0) <= 0.03505819
    requires SizeLaw(power) && RoundsToTenth(round1)
    ensures var c := Milestones(m, power, 1898.0, 97.0, round1);
      c.fifty > c.ninety > c.ninetyNine > CAP_DAYS && c.fifty - c.ninetyNine > 40.0
  {
    var bs, bl := Ballistic(2.0), Ballistic(0.073);
    assert AreaToMass(power, SMALLEST) == 2.0 && AreaToMass(power, LARGEST) == 0.073;
    SlownessBounds(m.sqrt, Axis(1898.0), 0.00000000001741074, 0.00000000001741075);
    FirstStep(m, 1898.0, bs, 97.0, 0.03505818, 0.03505819, 0.00000000001741074, 0.00000000001741075, 38542000.0,
              38543000.0);
    FirstStep(m, 1898.0, bl, 97.0, 0.03505818, 0.03505819, 0.00000000001741074, 0.00000000001741075, 1055950000.0,
              1055970000.0);
    SmallClassLife(m, bs);
    StepsShrink(m, 1898.0, bl, 97.0, 3);
    LargeClassLife(StepFor(m, bl, 97.0), 1898.0, 120.0);
    ReversedAfterRounding(ClassLifetime(m, power, 1898.0, 97.0, SMALLEST),
                          ClassLifetime(m, power, 1898.0, 97.0, LARGEST), round1);
  }

  lemma ReversedAfterRounding(small: real, large: real, round1: real -> real)
    requires RoundsToTenth(round1) && small - large > 41.0 && large > CAP_DAYS + 1.0
    ensures var c := ClearingOf(round1(small), round1(large), round1);
      c.fifty > c.ninety > c.ninetyNine > CAP_DAYS && c.fifty - c.ninetyNine > 40.0
  {
    TwiceRounded(round1, small);
    TwiceRounded(round1, large);
    var mean := 0.5 * (round1(small) + round1(large));
    assert small - 0.05 <= round1(small) <= small + 0.05 && large - 0.05 <= round1(large) <= large + 0.05;
    assert mean - 0.05 <= round1(mean) <= mean + 0.05;
  }

  lemma SmallClassLife(m: Maths, bc: real)
    requires Physical(m) && Usual(m, 1898.0, bc, 97.0)
    requires var s := StepFor(m, bc, 97.0)(1898.0); s.Some? && 38542000.0 <= s.value <= 38543000.0
    ensures Descend(StepFor(m, bc, 97.0), 1898.0, 120.0, 0.0) >= 3160444000.0 / DAY
  {
    var n := StepCount();
    StepsShrink(m, 1898.0, bc, 97.0, n + 1);
    SmallLife(StepFor(m, bc, 97.0), 1898.0, 120.0, n);
  }

  lemma SmallLife(step: StepTime, h: real, low: real, n: nat)
    requires 0 < n && Shrinks(step, h, n + 1, LO, HI) && h - n as real > low
    requires Geo(HI, n) <= 81.81 && Geo(LO, n + 1) >= 82.0
    requires 38542000.0 <= step(h).value <= 38543000.0
    ensures Descend(step, h, low, 0.0) >= 3160444000.0 / DAY
  {
    assert Times(step(h).value, 81.81) <= CAP_SECONDS < 3160444000.0 <= Times(step(h).value, 82.0);
    LifeOfSteps(step, h, low, n, 81.81, 82.0);
  }

  lemma LifeOfSteps(step: StepTime, h: real, low: real, n: nat, most: real, least: real)
    requires 0 < n && Shrinks(step, h, n + 1, LO, HI) && h - n as real > low
    requires Geo(HI, n) <= most && Geo(LO, n + 1) >= least
    requires Times(step(h).value, most) <= CAP_SECONDS < Times(step(h).value, least)
    ensures Descend(step, h, low, 0.0) >= Times(step(h).value, least) / DAY
  {
    ShrinksLess(step, h, n + 1, n, LO, HI);
    SpentBounds(step, h, n, LO, HI);
    SpentBounds(step, h, n + 1, LO, HI);
    SumsCross(step(h).value, Spent(step, h, n), Spent(step, h, n + 1), Geo(HI, n), Geo(LO, n + 1), most, least);
    EndsBeyondCap(step, h, low, n, 0.0, LO, HI);
  }

  lemma SumsCross(v: real, a: real, b: real, g: real, k: real, most: real, least: real)
    requires v > 0.0 && a <= Times(v, g) && Times(v, k) <= b && g <= most && least <= k
    ensures a <= Times(v, most) && Times(v, least) <= b
  {
    OrderTimes(g, most, v);
    OrderTimes(least, k, v);
  }

  lemma LargeClassLife(step: StepTime, h: real, low: real)
    requires Shrinks(step, h, 3, LO, HI) && h - 2.0 > low && 1055950000.0 <= step(h).value <= 1055970000.0
    ensures CAP_DAYS + 1.0 < Descend(step, h, low, 0.0) <= 3156400000.0 / DAY
  {
    ShrinksLess(step, h, 3, 2, LO, HI);
    SpentBounds(step, h, 2, LO, HI);
    SpentBounds(step, h, 3, LO, HI);
    SmallGeos();
    EndsBeyondCap(step, h, low, 2, 0.0, LO, HI);
  }

  lemma SmallGeos()
    ensures Geo(HI, 2) == 1.996347 && Geo(LO, 3) >= 2.98883 && Geo(HI, 3) <= 2.98906
  {
    GeoOne(LO);
    GeoOne(HI);
    assert Geo(LO, 2) == 1.0 + Times(LO, Geo(LO, 1));
    assert Geo(HI, 2) == 1.0 + Times(HI, Geo(HI, 1));
    assert Geo(LO, 3) == 1.0 + Times(LO, Geo(LO, 2));
    assert Geo(HI, 3) == 1.0 + Times(HI, Geo(HI, 2));
  }

  lemma {:induction false} ShrinksLess(step: StepTime, h: real, n: nat, k: nat, lo: real, hi: real)
    requires Shrinks(step, h, n, lo, hi) && k <= n
    ensures Shrinks(step, h, k, lo, hi)
    decreases n
  {
    if k > 0 {
      ShrinksLess(step, h - 1.0, n - 1, k - 1, lo, hi);
    }
  }
}
