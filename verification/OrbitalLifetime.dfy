/** Drag lifetime by one-kilometre steps and the clearing times of a debris cloud.  The exponential, the
    square root and the size power law are arbitrary functions with the stated signs and directions. */
module OrbitalLifetime {
  import opened Prelude

  const EARTH_RADIUS_KM := 6378.137
  const MU := 398600441800000.0
  const PI := 3.141592653589793
  const DAY := 86400.0
  const CAP_SECONDS := 3153600000.0
  const CAP_DAYS := 36500.0
  const NEGLIGIBLE := 0.0000000001

  /** The cap is a hundred years of 365 days, in days and in seconds. */
  lemma CapInYears()
    ensures CAP_DAYS == 100.0 * 365.0 && CAP_SECONDS == CAP_DAYS * DAY && DAY == 24.0 * 3600.0
    ensures 3.141592653589 < PI < 3.141592653590
  {}

  // ---------- The stepping loop over an arbitrary step time ----------

  /** Seconds spent in the kilometre below an altitude; None when drag there is negligible. */
  type StepTime = real -> Option<real>

  /** The loop from altitude h on, with `total` seconds already spent: days of lifetime. */
  function Descend(step: StepTime, h: real, low: real, total: real): real
    decreases h - low
  {
    if h <= low then total / DAY
    else
      var s := step(h);
      if s.None? then total / DAY + CAP_DAYS
      else
        var t := total + s.value;
        if t > CAP_SECONDS then t / DAY else Descend(step, h - 1.0, low, t)
  }

  function Clip(days: real): real {
    if days <= CAP_DAYS then days else CAP_DAYS
  }

  /** Lifetime counted upwards from the floor and clipped at a hundred years: one kilometre higher is
      one step longer. */
  function Clipped(step: StepTime, h: real, low: real): real
    decreases h - low
  {
    if h <= low then 0.0
    else
      var s := step(h);
      if s.None? then CAP_DAYS else Clip(s.value / DAY + Clipped(step, h - 1.0, low))
  }

  ghost predicate NonNegative(step: StepTime) {
    forall h: real :: step(h).Some? ==> step(h).value >= 0.0
  }

  /** Steps of `b` are nowhere shorter than those of `a`. */
  ghost predicate NoShorter(a: StepTime, b: StepTime) {
    forall h: real :: b(h).Some? ==> a(h).Some? && a(h).value <= b(h).value
  }

  lemma {:induction false} ClippedRange(step: StepTime, h: real, low: real)
    requires NonNegative(step)
    ensures 0.0 <= Clipped(step, h, low) <= CAP_DAYS
    decreases h - low
  {
    if h > low && step(h).Some? {
      ClippedRange(step, h - 1.0, low);
    }
  }

  lemma {:induction false} DescendFrom(step: StepTime, h: real, low: real, total: real)
    requires NonNegative(step) && 0.0 <= total <= CAP_SECONDS
    ensures Clip(Descend(step, h, low, total)) == Clip(total / DAY + Clipped(step, h, low))
    decreases h - low
  {
    if h > low {
      ClippedRange(step, h - 1.0, low);
      var s := step(h);
      if s.Some? && total + s.value <= CAP_SECONDS {
        DescendFrom(step, h - 1.0, low, total + s.value);
      }
    }
  }

  /** Clipped at a hundred years the loop's result is the upward count; below the cap they are equal
      unclipped. */
  lemma LifetimeTelescopes(step: StepTime, h: real, low: real)
    requires NonNegative(step)
    ensures Clip(Descend(step, h, low, 0.0)) == Clipped(step, h, low)
    ensures Descend(step, h, low, 0.0) < CAP_DAYS <==> Clipped(step, h, low) < CAP_DAYS
    ensures Clipped(step, h, low) < CAP_DAYS ==> Descend(step, h, low, 0.0) == Clipped(step, h, low)
  {
    DescendFrom(step, h, low, 0.0);
    ClippedRange(step, h, low);
  }

  lemma {:induction false} ClippedMonotone(a: StepTime, b: StepTime, h: real, low: real)
    requires NonNegative(a) && NonNegative(b) && NoShorter(a, b)
    ensures Clipped(a, h, low) <= Clipped(b, h, low)
    decreases h - low
  {
    if h > low {
      ClippedRange(a, h, low);
      if b(h).Some? {
        ClippedMonotone(a, b, h - 1.0, low);
      }
    }
  }

  /** Whatever shortens every step never lengthens a lifetime that stays within a hundred years. */
  lemma ShorterStepsShorterLife(a: StepTime, b: StepTime, h: real, low: real)
    requires NonNegative(a) && NonNegative(b) && NoShorter(a, b)
    requires Descend(a, h, low, 0.0) <= CAP_DAYS || Descend(b, h, low, 0.0) < CAP_DAYS
    ensures Descend(a, h, low, 0.0) <= Descend(b, h, low, 0.0)
  {
    LifetimeTelescopes(a, h, low);
    LifetimeTelescopes(b, h, low);
    ClippedMonotone(a, b, h, low);
  }

  /** Seconds by which the loop passes a hundred years, zero when it does not: what its last step has
      beyond the cap, or all it has spent where drag becomes negligible. */
  function Overshoot(step: StepTime, h: real, low: real, total: real): real
    decreases h - low
  {
    if h <= low then 0.0
    else
      var s := step(h);
      if s.None? then total
      else if total + s.value > CAP_SECONDS then total + s.value - CAP_SECONDS
      else Overshoot(step, h - 1.0, low, total + s.value)
  }

  function Excess(days: real): real {
    if days > CAP_DAYS then days - CAP_DAYS else 0.0
  }

  lemma {:induction false} ExcessIsOvershoot(step: StepTime, h: real, low: real, total: real)
    requires NonNegative(step) && 0.0 <= total <= CAP_SECONDS
    ensures Excess(Descend(step, h, low, total)) == Overshoot(step, h, low, total) / DAY
    decreases h - low
  {
    if h > low && step(h).Some? && total + step(h).value <= CAP_SECONDS {
      ExcessIsOvershoot(step, h - 1.0, low, total + step(h).value);
    }
  }

  /** When all steps shorten, the lifetime does not grow exactly when it stays within a hundred years or
      passes them by no more than before. */
  lemma OrderSurvivesExactly(a: StepTime, b: StepTime, h: real, low: real)
    requires NonNegative(a) && NonNegative(b) && NoShorter(a, b)
    ensures Descend(a, h, low, 0.0) <= Descend(b, h, low, 0.0) <==>
            Descend(a, h, low, 0.0) <= CAP_DAYS || Overshoot(a, h, low, 0.0) <= Overshoot(b, h, low, 0.0)
  {
    ExcessIsOvershoot(a, h, low, 0.0);
    ExcessIsOvershoot(b, h, low, 0.0);
    if Descend(a, h, low, 0.0) <= CAP_DAYS {
      ShorterStepsShorterLife(a, b, h, low);
    } else {
      LifetimeTelescopes(a, h, low);
      LifetimeTelescopes(b, h, low);
      ClippedMonotone(a, b, h, low);
    }
  }

  /** How the loop ends, and in which kilometre: at the floor, where drag is negligible, or beyond the cap. */
  datatype End = Landed(km: nat) | Adrift(km: nat) | Capped(km: nat) {
    function Later(): End {
      match this
      case Landed(n) => Landed(n + 1)
      case Adrift(n) => Adrift(n + 1)
      case Capped(n) => Capped(n + 1)
    }
  }

  function EndOf(step: StepTime, h: real, low: real, total: real): End
    decreases h - low
  {
    if h <= low then Landed(0)
    else
      var s := step(h);
      if s.None? then Adrift(0)
      else if total + s.value > CAP_SECONDS then Capped(0)
      else EndOf(step, h - 1.0, low, total + s.value).Later()
  }

  /** Loops that end in the same kilometre in the same way keep their order, also beyond the cap. */
  lemma {:induction false} SameEndKeepsOrder(a: StepTime, b: StepTime, h: real, low: real, s: real, t: real)
    requires NoShorter(a, b) && s <= t
    requires EndOf(a, h, low, s) == EndOf(b, h, low, t)
    ensures Descend(a, h, low, s) <= Descend(b, h, low, t)
    decreases h - low
  {
    if h > low && EndOf(b, h, low, t) != Adrift(0) && EndOf(b, h, low, t) != Capped(0) {
      SameEndKeepsOrder(a, b, h - 1.0, low, s + a(h).value, t + b(h).value);
    }
  }

  /** A kilometre more never shortens the clipped lifetime. */
  lemma HigherLivesLonger(step: StepTime, h: real, low: real)
    requires NonNegative(step)
    ensures Clipped(step, h, low) <= Clipped(step, h + 1.0, low)
  {
    ClippedRange(step, h, low);
  }

  // ---------- Density ----------

  /** Base altitude (km), density there (kg/m3) and scale height (km). */
  const BANDS: seq<(real, real, real)> := [
    (100.0, 0.0000005297, 5.877), (110.0, 0.00000009661, 7.263), (120.0, 0.00000002438, 9.473),
    (130.0, 0.000000008484, 12.636), (140.0, 0.000000003845, 16.149), (150.0, 0.000000002070, 22.523),
    (180.0, 0.0000000005464, 29.740), (200.0, 0.0000000002789, 37.105), (250.0, 0.00000000007248, 45.546),
    (300.0, 0.00000000002418, 53.628), (350.0, 0.000000000009518, 53.298), (400.0, 0.000000000003725, 58.515),
    (450.0, 0.000000000001585, 60.828), (500.0, 0.0000000000006967, 63.822), (600.0, 0.0000000000001454, 71.835),
    (700.0, 0.00000000000003614, 88.667), (800.0, 0.00000000000001170, 124.64), (900.0, 0.000000000000005245, 181.05),
    (1000.0, 0.000000000000003019, 268.00)]

  /** The last band, from i on, in a row of bands that start no higher than h. */
  function BandFrom(h: real, i: nat): (k: nat)
    requires i < |BANDS|
    ensures i <= k < |BANDS|
    ensures BANDS[i].0 <= h ==> BANDS[k].0 <= h
    ensures k + 1 < |BANDS| ==> h < BANDS[k + 1].0
    decreases |BANDS| - i
  {
    if i + 1 < |BANDS| && h >= BANDS[i + 1].0 then BandFrom(h, i + 1) else i
  }

  function InBand(exp: real -> real, h: real, band: (real, real, real)): real
    requires band.2 != 0.0
  {
    band.1 * exp(-(h - band.0) / band.2)
  }

  lemma BandsArePositive(i: nat)
    requires i < |BANDS|
    ensures BANDS[i].1 > 0.0 && BANDS[i].2 > 0.0
  {}

  function Density(exp: real -> real, altitude: real): real {
    if altitude <= 0.0 then 0.0
    else
      var h := if altitude < 100.0 then 100.0 else altitude;
      var i := if h > 1000.0 then |BANDS| - 1 else BandFrom(h, 0);
      BandsArePositive(i);
      InBand(exp, h, BANDS[i])
  }

  ghost predicate Positive(f: real -> real) {
    forall x: real :: f(x) > 0.0
  }

  ghost predicate NeverNegative(f: real -> real) {
    forall x: real :: f(x) >= 0.0
  }

  lemma DensityNonNegative(exp: real -> real, h: real)
    requires Positive(exp)
    ensures Density(exp, h) >= 0.0
  {
    if h > 0.0 {
      var c := if h < 100.0 then 100.0 else h;
      var i := if c > 1000.0 then |BANDS| - 1 else BandFrom(c, 0);
      BandsArePositive(i);
      InBandNonNegative(exp, c, BANDS[i]);
    }
  }

  lemma InBandNonNegative(exp: real -> real, h: real, band: (real, real, real))
    requires Positive(exp) && band.1 > 0.0 && band.2 > 0.0
    ensures InBand(exp, h, band) >= 0.0
  {
    ProductSign(band.1, exp(-(h - band.0) / band.2), InBand(exp, h, band));
  }

  lemma ProductSign(a: real, b: real, p: real)
    requires a >= 0.0 && b >= 0.0 && p == a * b
    ensures p >= 0.0
  {}

  // ---------- What the density is ----------

  lemma BasesRise(i: nat)
    requires i + 1 < |BANDS|
    ensures BANDS[i].0 < BANDS[i + 1].0
  {}

  lemma {:induction false} BasesAreOrdered(i: nat, j: nat)
    requires i < j < |BANDS|
    ensures BANDS[i].0 < BANDS[j].0
  {
    BasesRise(j - 1);
    if i < j - 1 {
      BasesAreOrdered(i, j - 1);
    }
  }

  /** An altitude lies in band k: at or above its base and below the next one. */
  predicate InRange(h: real, k: nat) {
    k < |BANDS| && BANDS[k].0 <= h && (k + 1 < |BANDS| ==> h < BANDS[k + 1].0)
  }

  lemma BandIsUnique(h: real, i: nat, k: nat)
    requires InRange(h, i) && InRange(h, k)
    ensures i == k
  {
    if i < k {
      NextBase(h, i, k);
    } else if k < i {
      NextBase(h, k, i);
    }
  }

  lemma NextBase(h: real, i: nat, k: nat)
    requires i < k < |BANDS| && BANDS[k].0 <= h
    ensures BANDS[i + 1].0 <= h
  {
    if i + 1 < k {
      BasesAreOrdered(i + 1, k);
    }
  }

  lemma FirstBand()
    ensures BANDS[0].0 == 100.0 && BANDS[|BANDS| - 1].0 == 1000.0
  {}

  /** From 100 to 1000 km the band chosen is the one the altitude lies in, and the last one above. */
  lemma BandHolds(h: real)
    requires 100.0 <= h
    ensures InRange(h, BandFrom(h, 0))
    ensures 1000.0 <= h ==> InRange(h, |BANDS| - 1)
  {
    FirstBand();
  }

  lemma DensityOfBand(exp: real -> real, h: real, k: nat)
    requires 100.0 <= h && InRange(h, k)
    ensures BANDS[k].2 > 0.0 && Density(exp, h) == InBand(exp, h, BANDS[k])
  {
    BandHolds(h);
    var i := if h > 1000.0 then |BANDS| - 1 else BandFrom(h, 0);
    BandIsUnique(h, i, k);
    BandsArePositive(k);
  }

  /** At the base of each band it is the tabulated density. */
  lemma DensityAtBase(exp: real -> real, k: nat)
    requires k < |BANDS| && exp(0.0) == 1.0
    ensures Density(exp, BANDS[k].0) == BANDS[k].1
  {
    FirstBand();
    if k > 0 {
      BasesAreOrdered(0, k);
    }
    if k + 1 < |BANDS| {
      BasesRise(k);
    }
    DensityOfBand(exp, BANDS[k].0, k);
    InBandAtBase(exp, BANDS[k]);
  }

  lemma InBandAtBase(exp: real -> real, band: (real, real, real))
    requires band.2 != 0.0 && exp(0.0) == 1.0
    ensures InBand(exp, band.0, band) == band.1
  {
    assert -(band.0 - band.0) / band.2 == 0.0;
  }

  /** Between two altitudes of one band it falls exponentially, by the band's scale height; the last band has no
      upper end. */
  lemma DensityDecays(exp: real -> real, h: real, h': real, k: nat)
    requires forall x: real, y: real :: exp(x + y) == Times(exp(x), exp(y))
    requires 100.0 <= h && InRange(h, k) && 100.0 <= h' && InRange(h', k)
    ensures BANDS[k].2 > 0.0 && Density(exp, h') == Times(Density(exp, h), exp(-(h' - h) / BANDS[k].2))
  {
    DensityOfBand(exp, h, k);
    DensityOfBand(exp, h', k);
    InBandDecays(exp, h, h', BANDS[k]);
  }

  lemma InBandDecays(exp: real -> real, h: real, h': real, band: (real, real, real))
    requires forall x: real, y: real :: exp(x + y) == Times(exp(x), exp(y))
    requires band.2 != 0.0
    ensures InBand(exp, h', band) == Times(InBand(exp, h, band), exp(-(h' - h) / band.2))
  {
    var x, y := -(h - band.0) / band.2, -(h' - h) / band.2;
    FractionsAdd(-(h - band.0), -(h' - h), band.2);
    assert x + y == -(h' - band.0) / band.2;
    Regroup(band.1, exp(x), exp(y));
  }

  lemma FractionsAdd(x: real, y: real, d: real)
    requires d != 0.0
    ensures x / d + y / d == (x + y) / d
  {}

  lemma Regroup(x: real, y: real, z: real)
    ensures x * Times(y, z) == Times(x * y, z)
  {}

  /** Under 100 km it stays at the value for 100 km; at and below the ground it is zero. */
  lemma DensityIsClamped(exp: real -> real, h: real, edge: real)
    requires h <= edge == 100.0
    ensures Density(exp, h) == if h <= 0.0 then 0.0 else Density(exp, edge)
  {}

  /** Solar activity factor on the density. */
  function SolarFactor(flux: real): real {
    if flux > 150.0 then 1.0 + 0.5 * (flux - 150.0) / 100.0
    else if flux < 100.0 then (if flux / 100.0 < 0.3 then 0.3 else flux / 100.0)
    else 1.0
  }

  lemma SolarFactorMonotone(f: real, g: real)
    requires f <= g
    ensures 0.3 <= SolarFactor(f) <= SolarFactor(g)
  {}

  /** No effect from 100 to 150 flux units; half a percent for each unit above; in proportion to the flux below,
      down to three tenths. */
  lemma SolarFactorByRange(f: real)
    ensures 100.0 <= f <= 150.0 ==> SolarFactor(f) == 1.0
    ensures f >= 150.0 ==> SolarFactor(f) - 1.0 == 0.005 * (f - 150.0)
    ensures 30.0 <= f <= 100.0 ==> 100.0 * SolarFactor(f) == f
    ensures f <= 30.0 ==> 10.0 * SolarFactor(f) == 3.0
  {}

  // ---------- Time for one kilometre ----------

  datatype Maths = Maths(exp: real -> real, sqrt: real -> real)

  /** Loss of semi-major axis per orbit, in metres. */
  function LossPerOrbit(rho: real, a: real, bc: real): real
    requires bc != 0.0
  {
    2.0 * PI * rho * a * a / bc
  }

  function Period(m: Maths, a: real): real {
    2.0 * PI * m.sqrt(a * a * a / MU)
  }

  function KilometreTime(loss: real, period: real): real
    requires loss != 0.0
  {
    1000.0 / loss * period
  }

  function StepFor(m: Maths, bc: real, flux: real): StepTime
    requires bc != 0.0
  {
    (h: real) =>
      var a := (EARTH_RADIUS_KM + h) * 1000.0;
      var loss := LossPerOrbit(Times(Density(m.exp, h), SolarFactor(flux)), a, bc);
      if loss < NEGLIGIBLE then None else Some(KilometreTime(loss, Period(m, a)))
  }

  /** Kepler's third law. */
  lemma PeriodIsKepler(m: Maths, a: real)
    requires IsRoot(m.sqrt) && a >= 0.0
    ensures Period(m, a) >= 0.0 && MU * Sq(Period(m, a)) == 4.0 * (PI * PI) * (a * a * a)
  {
    CubeSign(a);
    var q := a * a * a / MU;
    assert MU * q == a * a * a;
    assert Sq(m.sqrt(q)) == q;
    var r := m.sqrt(q);
    assert Sq(2.0 * PI * r) == 4.0 * (PI * PI) * Sq(r);
  }

  lemma CubeSign(a: real)
    requires a >= 0.0
    ensures a * a * a >= 0.0
  {
    ProductSign(a, a, a * a);
    ProductSign(a * a, a, a * a * a);
  }

  /** What one step is: with the loss per orbit of King-Hele, the number of orbits that lose a kilometre, in
      seconds; no time where the loss is below 1e-10 metres. */
  lemma StepMeans(m: Maths, bc: real, flux: real, h: real) returns (loss: real)
    requires bc != 0.0
    ensures var a := 1000.0 * (EARTH_RADIUS_KM + h);
      && Times(bc, loss) == 2.0 * PI * Times(Times(Density(m.exp, h), SolarFactor(flux)), Sq(a))
      && (StepFor(m, bc, flux)(h).None? <==> 10000000000.0 * loss < 1.0)
      && (StepFor(m, bc, flux)(h).Some? ==> Times(StepFor(m, bc, flux)(h).value, loss) == 1000.0 * Period(m, a))
  {
    var a := (EARTH_RADIUS_KM + h) * 1000.0;
    var rho := Times(Density(m.exp, h), SolarFactor(flux));
    loss := LossPerOrbit(rho, a, bc);
    LossTimes(rho, a, bc);
    if loss >= NEGLIGIBLE {
      KilometreTimes(loss, Period(m, a));
    }
  }

  lemma LossTimes(rho: real, a: real, bc: real)
    requires bc != 0.0
    ensures Times(bc, LossPerOrbit(rho, a, bc)) == 2.0 * PI * Times(rho, Sq(a))
  {
    var x := 2.0 * PI * rho * a * a;
    assert bc * (x / bc) == x;
    assert x == 2.0 * PI * (rho * (a * a));
  }

  lemma KilometreTimes(loss: real, period: real)
    requires loss != 0.0
    ensures Times(KilometreTime(loss, period), loss) == 1000.0 * period
  {
    var q := 1000.0 / loss;
    assert q * loss == 1000.0;
    assert q * period * loss == (q * loss) * period;
  }

  lemma LossMonotone(rho: real, rho': real, a: real, bc: real, bc': real)
    requires 0.0 <= rho <= rho' && 0.0 < bc' <= bc
    ensures LossPerOrbit(rho, a, bc) <= LossPerOrbit(rho', a, bc')
  {
    var x, y := 2.0 * PI * rho * a * a, 2.0 * PI * rho' * a * a;
    var w := 2.0 * PI * (a * a);
    assert x == rho * w && y == rho' * w;
    assert w >= 0.0;
    OrderTimes(rho, rho', w);
    ProductSign(rho, w, x);
    DivOrder(x, y, bc, bc');
  }

  lemma OrderTimes(p: real, q: real, w: real)
    requires p <= q && 0.0 <= w
    ensures p * w <= q * w
  {}

  lemma DivOrder(x: real, y: real, b: real, c: real)
    requires 0.0 <= x <= y && 0.0 < c <= b
    ensures x / b <= y / c
  {
    assert x / b <= x / c by {
      var q := x / b;
      assert q * b == x && q >= 0.0;
      assert q * c <= q * b;
      assert (q * c) / c <= x / c;
    }
    assert x / c <= y / c;
  }

  lemma KilometreTimeMonotone(loss: real, loss': real, period: real)
    requires 0.0 < loss' <= loss && 0.0 <= period
    ensures 0.0 <= KilometreTime(loss, period) <= KilometreTime(loss', period)
  {
    DivOrder(1000.0, 1000.0, loss, loss');
    OrderTimes(1000.0 / loss, 1000.0 / loss', period);
    ProductSign(1000.0 / loss, period, 1000.0 / loss * period);
  }

  lemma PeriodNonNegative(m: Maths, a: real)
    requires NeverNegative(m.sqrt)
    ensures Period(m, a) >= 0.0
  {
    assert m.sqrt(a * a * a / MU) >= 0.0;
  }

  /** More solar flux or a smaller ballistic coefficient shortens every step. */
  lemma StepsRespond(m: Maths, bc: real, flux: real, bc': real, flux': real)
    requires Positive(m.exp) && NeverNegative(m.sqrt)
    requires 0.0 < bc' <= bc && flux <= flux'
    ensures NonNegative(StepFor(m, bc, flux)) && NoShorter(StepFor(m, bc', flux'), StepFor(m, bc, flux))
  {
    forall h: real
      ensures StepFor(m, bc, flux)(h).Some? ==> StepFor(m, bc, flux)(h).value >= 0.0
      ensures StepFor(m, bc, flux)(h).Some? ==>
        StepFor(m, bc', flux')(h).Some? && StepFor(m, bc', flux')(h).value <= StepFor(m, bc, flux)(h).value
    {
      var a := (EARTH_RADIUS_KM + h) * 1000.0;
      var rho, rho' := Times(Density(m.exp, h), SolarFactor(flux)), Times(Density(m.exp, h), SolarFactor(flux'));
      DensityNonNegative(m.exp, h);
      SolarFactorMonotone(flux, flux');
      ScaledMonotone(Density(m.exp, h), SolarFactor(flux), SolarFactor(flux'));
      LossMonotone(rho, rho', a, bc, bc');
      PeriodNonNegative(m, a);
      var loss, loss' := LossPerOrbit(rho, a, bc), LossPerOrbit(rho', a, bc');
      if loss >= NEGLIGIBLE {
        KilometreTimeMonotone(loss', loss, Period(m, a));
      }
    }
  }

  lemma ScaledMonotone(rho: real, f: real, g: real)
    requires 0.0 <= rho && 0.0 <= f <= g
    ensures 0.0 <= Times(rho, f) <= Times(rho, g)
  {
    OrderTimes(f, g, rho);
  }

  // ---------- estimate_orbital_lifetime ----------

  function Lifetime(m: Maths, altitude: real, bc: real, flux: real, low: real): real
    requires bc != 0.0
  {
    Descend(StepFor(m, bc, flux), altitude, low, 0.0)
  }

  /** The stepping loop; it ends after at most the number of kilometres, rounded up, above the floor. */
  method StepDown(step: StepTime, altitude: real, low: real) returns (days: real, iterations: nat)
    ensures days == Descend(step, altitude, low, 0.0)
    ensures iterations == 0 <==> altitude <= low
    ensures iterations > 0 ==> iterations as real < altitude - low + 1.0
  {
    iterations := 0;
    var total, h := 0.0, altitude;
    ghost var result := Descend(step, altitude, low, total);
    while h > low
      invariant result == Descend(step, h, low, total)
      invariant h == altitude - iterations as real
      invariant iterations > 0 ==> h + 1.0 > low
      decreases h - low
    {
      var s := step(h);
      iterations := iterations + 1;
      if s.None? {
        return total / DAY + CAP_DAYS, iterations;
      }
      total := total + s.value;
      h := h - 1.0;
      if total > CAP_SECONDS {
        return total / DAY, iterations;
      }
    }
    return total / DAY, iterations;
  }

  method EstimateOrbitalLifetime(m: Maths, altitude: real, bc: real, flux: real, low: real)
    returns (days: real, iterations: nat)
    requires bc != 0.0
    ensures days == Lifetime(m, altitude, bc, flux, low)
    ensures iterations == 0 <==> altitude <= low
    ensures iterations > 0 ==> iterations as real < altitude - low + 1.0
  {
    days, iterations := StepDown(StepFor(m, bc, flux), altitude, low);
  }

  /** More solar flux, or a smaller ballistic coefficient, never lengthens the clipped life, and does not
      lengthen life itself exactly when it ends within a hundred years or overshoots them by no more. */
  lemma LifetimeResponds(m: Maths, altitude: real, low: real, bc: real, flux: real, bc': real, flux': real)
    requires Positive(m.exp) && NeverNegative(m.sqrt)
    requires 0.0 < bc' <= bc && flux <= flux'
    ensures Clip(Lifetime(m, altitude, bc', flux', low)) <= Clip(Lifetime(m, altitude, bc, flux, low))
    ensures Lifetime(m, altitude, bc', flux', low) <= Lifetime(m, altitude, bc, flux, low) <==>
      || Lifetime(m, altitude, bc', flux', low) <= CAP_DAYS
      || Overshoot(StepFor(m, bc', flux'), altitude, low, 0.0) <= Overshoot(StepFor(m, bc, flux), altitude, low, 0.0)
  {
    StepsRespond(m, bc, flux, bc', flux');
    StepsRespond(m, bc', flux', bc', flux');
    var a, b := StepFor(m, bc', flux'), StepFor(m, bc, flux);
    LifetimeTelescopes(a, altitude, low);
    LifetimeTelescopes(b, altitude, low);
    ClippedMonotone(a, b, altitude, low);
    OrderSurvivesExactly(a, b, altitude, low);
  }

  /** Within a hundred years the lifetime one kilometre higher is longer by exactly that kilometre's time. */
  lemma OneKilometreMore(m: Maths, altitude: real, low: real, bc: real, flux: real)
    requires Positive(m.exp) && NeverNegative(m.sqrt) && bc > 0.0 && low <= altitude
    requires Lifetime(m, altitude + 1.0, bc, flux, low) < CAP_DAYS
    ensures var s := StepFor(m, bc, flux)(altitude + 1.0);
      s.Some? && Lifetime(m, altitude + 1.0, bc, flux, low) == Lifetime(m, altitude, bc, flux, low) + s.value / DAY
  {
    var step := StepFor(m, bc, flux);
    StepsRespond(m, bc, flux, bc, flux);
    LifetimeTelescopes(step, altitude + 1.0, low);
    LifetimeTelescopes(step, altitude, low);
  }

  /** Every step, and so a lifetime under both caps, is proportional to the ballistic coefficient. */
  lemma {:induction false} ClippedScales(a: StepTime, b: StepTime, k: real, h: real, low: real)
    requires NonNegative(a) && NonNegative(b) && k > 0.0
    requires forall x: real :: a(x).Some? && b(x).Some? ==> b(x).value == Times(k, a(x).value)
    requires Clipped(a, h, low) < CAP_DAYS && Clipped(b, h, low) < CAP_DAYS
    ensures Clipped(b, h, low) == Times(k, Clipped(a, h, low))
    decreases h - low
  {
    if h > low {
      ClippedScales(a, b, k, h - 1.0, low);
      ScaleSum(k, a(h).value, Clipped(a, h - 1.0, low), b(h).value, Clipped(b, h - 1.0, low));
    } else {
      assert Times(k, 0.0) == 0.0;
    }
  }

  lemma ScaleSum(k: real, s: real, c: real, s': real, c': real)
    requires s' == Times(k, s) && c' == Times(k, c)
    ensures s' / DAY + c' == Times(k, s / DAY + c)
  {}

  lemma LifetimeIsProportional(m: Maths, altitude: real, low: real, bc: real, k: real, flux: real)
    requires Positive(m.exp) && NeverNegative(m.sqrt)
    requires bc > 0.0 && k > 0.0 && k * bc > 0.0
    requires Lifetime(m, altitude, bc, flux, low) < CAP_DAYS && Lifetime(m, altitude, k * bc, flux, low) < CAP_DAYS
    ensures Lifetime(m, altitude, k * bc, flux, low) == Times(k, Lifetime(m, altitude, bc, flux, low))
  {
    var kbc := k * bc;
    var a, b := StepFor(m, bc, flux), StepFor(m, kbc, flux);
    StepsRespond(m, bc, flux, bc, flux);
    StepsRespond(m, kbc, flux, kbc, flux);
    forall x: real | a(x).Some? && b(x).Some?
      ensures b(x).value == Times(k, a(x).value)
    {
      var p := (EARTH_RADIUS_KM + x) * 1000.0;
      var rho := Times(Density(m.exp, x), SolarFactor(flux));
      StepScales(rho, p, bc, k, kbc, Period(m, p));
    }
    LifetimeTelescopes(a, altitude, low);
    LifetimeTelescopes(b, altitude, low);
    ClippedScales(a, b, k, altitude, low);
  }

  lemma StepScales(rho: real, a: real, bc: real, k: real, kbc: real, period: real)
    requires bc > 0.0 && k > 0.0 && kbc == k * bc && kbc > 0.0
    requires LossPerOrbit(rho, a, bc) != 0.0 && LossPerOrbit(rho, a, kbc) != 0.0
    ensures KilometreTime(LossPerOrbit(rho, a, kbc), period) ==
            Times(k, KilometreTime(LossPerOrbit(rho, a, bc), period))
  {
    var x := 2.0 * PI * rho * a * a;
    var loss, loss' := x / bc, x / kbc;
    assert loss * bc == x && loss' * kbc == x;
    CancelLoss(loss, loss', bc, k, x);
    InverseScales(loss, loss', k, period);
  }

  lemma CancelLoss(loss: real, loss': real, bc: real, k: real, x: real)
    requires bc > 0.0 && loss * bc == x && loss' * (k * bc) == x
    ensures loss == loss' * k
  {
    assert (loss - loss' * k) * bc == 0.0;
  }

  lemma InverseScales(loss: real, loss': real, k: real, period: real)
    requires loss != 0.0 && loss' != 0.0 && k > 0.0 && loss == loss' * k
    ensures KilometreTime(loss', period) == Times(k, KilometreTime(loss, period))
  {
    var q, r := 1000.0 / loss, 1000.0 / loss';
    assert q * loss == 1000.0 && r * loss' == 1000.0;
    assert (r - q * k) * loss' == 0.0;
    assert r == q * k;
    assert r * period == k * (q * period);
  }

  // ---------- Cloud clearing ----------

  /** Area to mass for a characteristic length; `power` is the length to the -0.74. */
  function AreaToMass(power: real -> real, lc: real): (am: real)
    ensures 0.005 <= am <= 2.0
  {
    if lc <= 0.0 then 0.1
    else
      var am := 0.073 * power(lc);
      var capped := if am < 2.0 then am else 2.0;
      if capped < 0.005 then 0.005 else capped
  }

  /** Ballistic coefficient at the default drag coefficient 2.2. */
  function Ballistic(am: real): (bc: real)
    requires am > 0.0
    ensures bc > 0.0
  {
    1.0 / (2.2 * am)
  }

  /** The coefficient is the reciprocal of 2.2 times the area to mass ratio, which is 0.073 lc^-0.74 between its
      limits. */
  lemma FragmentMeans(power: real -> real, lc: real)
    ensures var am := AreaToMass(power, lc);
      && Times(2.2 * am, Ballistic(am)) == 1.0
      && (lc <= 0.0 ==> 10.0 * am == 1.0)
      && (lc > 0.0 && 0.005 <= 0.073 * power(lc) <= 2.0 ==> 1000.0 * am == 73.0 * power(lc))
      && (lc > 0.0 && 0.073 * power(lc) > 2.0 ==> am == 2.0)
      && (lc > 0.0 && 0.073 * power(lc) < 0.005 ==> am == 0.005)
  {
    Reciprocal(2.2 * AreaToMass(power, lc));
  }

  lemma Reciprocal(x: real)
    requires x != 0.0
    ensures Times(x, 1.0 / x) == 1.0
  {}

  lemma BallisticOrder(power: real -> real, small: real, large: real)
    requires 0.0 < small <= large && power(large) <= power(small)
    ensures Ballistic(AreaToMass(power, small)) <= Ballistic(AreaToMass(power, large))
  {
    DivOrder(1.0, 1.0, 2.2 * AreaToMass(power, small), 2.2 * AreaToMass(power, large));
  }

  datatype Clearing = Clearing(fifty: real, ninety: real, ninetyNine: real)

  const SMALLEST := 0.01
  const LARGEST := 1.0

  function ClassStep(m: Maths, power: real -> real, flux: real, lc: real): StepTime {
    StepFor(m, Ballistic(AreaToMass(power, lc)), flux)
  }

  function ClassLifetime(m: Maths, power: real -> real, altitude: real, flux: real, lc: real): real {
    Descend(ClassStep(m, power, flux, lc), altitude, 120.0, 0.0)
  }

  /** Milestones from the rounded lifetimes of the smallest and the largest size class. */
  function ClearingOf(lifeSmall: real, lifeLarge: real, round1: real -> real): Clearing {
    Clearing(round1(lifeSmall), round1(0.5 * (lifeSmall + lifeLarge)), round1(lifeLarge))
  }

  method CloudClearing(m: Maths, power: real -> real, altitude: real, flux: real, round1: real -> real)
    returns (c: Clearing)
    ensures c == ClearingOf(round1(ClassLifetime(m, power, altitude, flux, SMALLEST)),
                            round1(ClassLifetime(m, power, altitude, flux, LARGEST)), round1)
  {
    var lives, sizes := [], [0.01, 0.05, 0.1, 0.5, 1.0];
    for i := 0 to |sizes|
      invariant |lives| == i
      invariant forall k :: 0 <= k < i ==> lives[k] == round1(ClassLifetime(m, power, altitude, flux, sizes[k]))
    {
      var am := AreaToMass(power, sizes[i]);
      var life, _ := EstimateOrbitalLifetime(m, altitude, Ballistic(am), flux, 120.0);
      lives := lives + [round1(life)];
    }
    assert sizes[0] == SMALLEST && sizes[4] == LARGEST;
    c := ClearingOf(lives[0], lives[|lives| - 1], round1);
  }

  function Milestones(m: Maths, power: real -> real, altitude: real, flux: real, round1: real -> real): Clearing {
    ClearingOf(round1(ClassLifetime(m, power, altitude, flux, SMALLEST)),
               round1(ClassLifetime(m, power, altitude, flux, LARGEST)), round1)
  }

  /** Without rounding the milestones are the smallest class's life, the middle, and the largest class's life. */
  lemma MilestonesMean(m: Maths, power: real -> real, altitude: real, flux: real)
    ensures var c := Milestones(m, power, altitude, flux, (x: real) => x);
      && c.fifty == ClassLifetime(m, power, altitude, flux, 0.01)
      && c.ninetyNine == ClassLifetime(m, power, altitude, flux, 1.0)
      && c.ninety - c.fifty == c.ninetyNine - c.ninety
  {}

  predicate Ordered(c: Clearing) {
    c.fifty <= c.ninety <= c.ninetyNine
  }

  /** The clearing milestones are ordered under every monotone rounding exactly when the smallest class
      clears within a hundred years or passes them by no more than the largest class. */
  lemma ClearingIsOrdered(m: Maths, power: real -> real, altitude: real, flux: real)
    requires Positive(m.exp) && NeverNegative(m.sqrt) && power(LARGEST) <= power(SMALLEST)
    ensures (forall round1 :: Monotone(round1) ==> Ordered(Milestones(m, power, altitude, flux, round1))) <==>
      || ClassLifetime(m, power, altitude, flux, SMALLEST) <= CAP_DAYS
      || Overshoot(ClassStep(m, power, flux, SMALLEST), altitude, 120.0, 0.0)
         <= Overshoot(ClassStep(m, power, flux, LARGEST), altitude, 120.0, 0.0)
  {
    var small := ClassLifetime(m, power, altitude, flux, SMALLEST);
    var large := ClassLifetime(m, power, altitude, flux, LARGEST);
    var bs, bl := Ballistic(AreaToMass(power, SMALLEST)), Ballistic(AreaToMass(power, LARGEST));
    BallisticOrder(power, SMALLEST, LARGEST);
    StepsRespond(m, bl, flux, bs, flux);
    StepsRespond(m, bs, flux, bs, flux);
    OrderSurvivesExactly(StepFor(m, bs, flux), StepFor(m, bl, flux), altitude, 120.0);
    if small <= large {
      forall round1 | Monotone(round1)
        ensures Ordered(Milestones(m, power, altitude, flux, round1))
      {
        RoundedAreOrdered(small, large, round1);
      }
    } else {
      var exact := (x: real) => x;
      assert Monotone(exact) && !Ordered(Milestones(m, power, altitude, flux, exact));
    }
  }

  /** In particular they are when both classes leave the loop in the same kilometre in the same way. */
  lemma SameEndKeepsMilestones(m: Maths, power: real -> real, altitude: real, flux: real, round1: real -> real)
    requires Positive(m.exp) && NeverNegative(m.sqrt) && power(LARGEST) <= power(SMALLEST) && Monotone(round1)
    requires EndOf(ClassStep(m, power, flux, SMALLEST), altitude, 120.0, 0.0)
          == EndOf(ClassStep(m, power, flux, LARGEST), altitude, 120.0, 0.0)
    ensures Ordered(Milestones(m, power, altitude, flux, round1))
  {
    var bs, bl := Ballistic(AreaToMass(power, SMALLEST)), Ballistic(AreaToMass(power, LARGEST));
    BallisticOrder(power, SMALLEST, LARGEST);
    StepsRespond(m, bl, flux, bs, flux);
    SameEndKeepsOrder(StepFor(m, bs, flux), StepFor(m, bl, flux), altitude, 120.0, 0.0, 0.0);
    RoundedAreOrdered(ClassLifetime(m, power, altitude, flux, SMALLEST),
                      ClassLifetime(m, power, altitude, flux, LARGEST), round1);
  }

  lemma RoundedAreOrdered(small: real, large: real, round1: real -> real)
    requires small <= large && Monotone(round1)
    ensures Ordered(ClearingOf(round1(small), round1(large), round1))
  {
    var s, l := round1(small), round1(large);
    assert s <= l;
    assert s <= 0.5 * (s + l) <= l;
  }
}
