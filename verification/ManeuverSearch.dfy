/** The delta-v bisection, the maneuver candidates built with it, and the lead time chosen for a pair.
    The collision probability is an arbitrary function of miss distance and uncertainty that may overflow. */
module ManeuverSearch {
  import opened Prelude

  const LO := 0.001
  const HI := 10.0
  const STEPS := 40
  const CELLS := 1099511627776
  const WIDTH := (HI - LO) / 1099511627776.0

  /** Point j of the grid that cuts [LO, HI] into 2^40 cells. */
  function Grid(j: int): real {
    LO + j as real * WIDTH
  }

  function Pow2(n: nat): (p: nat)
    ensures p >= 1
  {
    if n == 0 then 1 else 2 * Pow2(n - 1)
  }

  lemma FortyDoublings()
    ensures Pow2(STEPS) == CELLS
  {
    assert Pow2(5) == 32;
    Pow2Adds(5, 5);
    Pow2Adds(10, 10);
    Pow2Adds(20, 20);
  }

  lemma {:induction false} Pow2Adds(a: nat, b: nat)
    ensures Pow2(a + b) == Pow2(a) * Pow2(b)
  {
    if a > 0 {
      Pow2Adds(a - 1, b);
    }
  }

  /** Whether a burn suffices; None when computing its probability overflows. */
  type Trial = real -> Option<bool>

  /** The bracket of the search and the halvings left. */
  datatype Interval = Interval(lo: real, hi: real, left: nat)

  const WHOLE := Interval(LO, HI, STEPS)

  /** Keeps the half in which feasibility starts; an overflow ends the search without a result. */
  function Halve(trial: Trial, v: Interval): Option<Interval>
    requires v.left > 0
  {
    var mid := (v.lo + v.hi) / 2.0;
    var t := trial(mid);
    if t.None? then None
    else Some(if t.value then Interval(v.lo, mid, v.left - 1) else Interval(mid, v.hi, v.left - 1))
  }

  function Bisect(trial: Trial, v: Interval): Option<real>
    decreases v.left
  {
    if v.left == 0 then Some(v.hi)
    else
      var next := Halve(trial, v);
      if next.None? then None else Bisect(trial, next.value)
  }

  /** v runs from grid point a over one cell for each outcome of its halvings. */
  ghost predicate OnGrid(v: Interval, a: int) {
    v.lo == Grid(a) && v.hi == Grid(a + Pow2(v.left))
  }

  lemma HalveOnGrid(trial: Trial, v: Interval, a: int)
    requires v.left > 0 && OnGrid(v, a)
    ensures var mid := a + Pow2(v.left - 1); var t, next := trial(Grid(mid)), Halve(trial, v);
      && (t.None? <==> next.None?)
      && (t.Some? ==> OnGrid(next.value, if t.value then a else mid))
  {
    assert (Grid(a) + Grid(a + 2 * Pow2(v.left - 1))) / 2.0 == Grid(a + Pow2(v.left - 1));
  }

  lemma WholeIsOnGrid()
    ensures OnGrid(WHOLE, 0) && Pow2(WHOLE.left) == CELLS
  {
    FortyDoublings();
    GridEnds();
  }

  /** j is a grid point where feasibility starts: feasible (or the upper end) with an infeasible
      neighbour below (or the first cell). */
  ghost predicate Boundary(trial: Trial, j: int, a: int, b: int) {
    && a < j <= b
    && (j == b || trial(Grid(j)) == Some(true))
    && (j == a + 1 || trial(Grid(j - 1)) == Some(false))
  }

  lemma {:induction false} BisectFindsBoundary(trial: Trial, v: Interval, a: int) returns (j: int)
    requires OnGrid(v, a) && Bisect(trial, v).Some?
    ensures Bisect(trial, v) == Some(Grid(j)) && Boundary(trial, j, a, a + Pow2(v.left))
    decreases v.left
  {
    if v.left == 0 {
      j := a + 1;
    } else {
      HalveOnGrid(trial, v, a);
      var mid := a + Pow2(v.left - 1);
      j := BisectFindsBoundary(trial, Halve(trial, v).value, if trial(Grid(mid)).value then a else mid);
    }
  }

  /** Without an overflow inside the interval the search has a result. */
  lemma {:induction false} BisectIsDefined(trial: Trial, v: Interval, a: int)
    requires OnGrid(v, a) && forall k :: a < k < a + Pow2(v.left) ==> trial(Grid(k)).Some?
    ensures Bisect(trial, v).Some?
    decreases v.left
  {
    if v.left > 0 {
      HalveOnGrid(trial, v, a);
      var mid := a + Pow2(v.left - 1);
      assert trial(Grid(mid)).Some?;
      BisectIsDefined(trial, Halve(trial, v).value, if trial(Grid(mid)).value then a else mid);
    }
  }

  lemma GridEnds()
    ensures Grid(0) == LO && Grid(CELLS) == HI
  {}

  /** The grid runs from 0.001 to 10 m/s in 2^40 equal cells. */
  lemma GridSpacing(j: int)
    ensures 1000.0 * Grid(0) == 1.0 && Grid(Pow2(40)) == 10.0
    ensures Grid(j + 1) - Grid(j) == Grid(1) - Grid(0)
  {
    FortyDoublings();
  }

  // ---------- compute_dv ----------

  /** None when the computation overflows. */
  type Probability = (real, real) -> Option<real>

  function NewMiss(miss: real, lead: real, dv: real): real {
    miss + dv * lead * 0.5
  }

  /** A burn adds half of what it would move the object by in the lead time. */
  lemma MissGained(miss: real, lead: real, dv: real)
    ensures 2.0 * (NewMiss(miss, lead, dv) - miss) == Times(dv, lead)
  {}

  function Suffices(pc: Option<real>, target: real): Option<bool> {
    if pc.None? then None else Some(pc.value <= target)
  }

  function Feasible(pc: Probability, miss: real, sigma: real, lead: real, target: real): Trial {
    (dv: real) => Suffices(pc(NewMiss(miss, lead, dv), sigma), target)
  }

  /** The least sufficient delta-v the search reports before rounding. */
  function Burn(pc: Probability, miss: real, sigma: real, lead: real, target: real): Option<real> {
    Bisect(Feasible(pc, miss, sigma, lead, target), WHOLE)
  }

  /** The probability never grows with the miss distance and overflows, if at all, beyond some distance. */
  ghost predicate Antitone(pc: Probability, sigma: real) {
    forall x: real, y: real :: 0.0 <= x <= y && pc(y, sigma).Some? ==>
      pc(x, sigma).Some? && pc(y, sigma).value <= pc(x, sigma).value
  }

  lemma BisectStep(trial: Trial, lo: real, mid: real, hi: real, n: nat)
    requires n > 0 && mid == (lo + hi) / 2.0
    ensures Bisect(trial, Interval(lo, hi, n)) ==
            if trial(mid).None? then None
            else Bisect(trial, if trial(mid).value then Interval(lo, mid, n - 1) else Interval(mid, hi, n - 1))
  {}

  /** The forty halvings both callers run. */
  method Search(pc: Probability, miss: real, sigma: real, lead: real, target: real) returns (r: Option<real>)
    ensures r == Burn(pc, miss, sigma, lead, target)
  {
    r := Halvings(pc, miss, sigma, lead, target, WHOLE, Feasible(pc, miss, sigma, lead, target));
  }

  method Halvings(pc: Probability, miss: real, sigma: real, lead: real, target: real, v: Interval, ghost f: Trial)
    returns (r: Option<real>)
    requires forall dv :: f(dv) == Suffices(pc(NewMiss(miss, lead, dv), sigma), target)
    ensures r == Bisect(f, v)
  {
    var lo, hi := v.lo, v.hi;
    for i := 0 to v.left
      invariant Bisect(f, v) == Bisect(f, Interval(lo, hi, v.left - i))
    {
      var mid := (lo + hi) / 2.0;
      var p := pc(NewMiss(miss, lead, mid), sigma);
      BisectStep(f, lo, mid, hi, v.left - i);
      assert f(mid) == Suffices(p, target);
      if p.None? {
        return None;
      }
      if p.value <= target {
        hi := mid;
      } else {
        lo := mid;
      }
    }
    return Some(hi);
  }

  method ComputeDv(pc: Probability, miss: real, sigma: real, lead: real, target: real, round4: real -> real)
    returns (dv: Option<real>)
    ensures dv == Rounded(Burn(pc, miss, sigma, lead, target), round4)
  {
    var hi := Search(pc, miss, sigma, lead, target);
    dv := Rounded(hi, round4);
  }

  function Rounded(dv: Option<real>, round4: real -> real): Option<real> {
    if dv.None? then None else Some(round4(dv.value))
  }

  lemma GridMonotone(j: int, k: int)
    requires 0 <= j <= k
    ensures LO <= Grid(j) <= Grid(k)
  {}

  lemma MissGrows(miss: real, lead: real, dv: real, miss': real, lead': real, dv': real)
    requires 0.0 <= miss <= miss' && 0.0 <= lead <= lead' && 0.0 <= dv <= dv'
    ensures 0.0 <= NewMiss(miss, lead, dv) <= NewMiss(miss', lead', dv')
  {
    assert 0.0 <= dv * lead <= dv' * lead;
    assert dv' * lead <= dv' * lead';
  }

  /** A burn that suffices is not refused when it, the lead time or the current miss is larger; and one
      whose probability can be computed still can when they are smaller. */
  lemma FeasibleUpward(pc: Probability, sigma: real, target: real, miss: real, lead: real, dv: real,
                       miss': real, lead': real, dv': real)
    requires Antitone(pc, sigma)
    requires 0.0 <= miss <= miss' && 0.0 <= lead <= lead' && 0.0 <= dv <= dv'
    ensures var f, f' := Feasible(pc, miss, sigma, lead, target), Feasible(pc, miss', sigma, lead', target);
      && (f(dv) == Some(true) ==> f'(dv') != Some(false))
      && (f'(dv') == Some(false) ==> f(dv) == Some(false))
      && (f'(dv').Some? ==> f(dv).Some?)
  {
    MissGrows(miss, lead, dv, miss', lead', dv');
  }

  /** With any probability function the result is 10 or meets the target, and the grid point just
      below it, unless that is 0.001, does not. */
  lemma BurnIsABoundary(pc: Probability, miss: real, sigma: real, lead: real, target: real) returns (j: int)
    requires Burn(pc, miss, sigma, lead, target).Some?
    ensures Burn(pc, miss, sigma, lead, target) == Some(Grid(j))
    ensures Boundary(Feasible(pc, miss, sigma, lead, target), j, 0, CELLS)
    ensures LO < Grid(j) <= HI
  {
    WholeIsOnGrid();
    j := BisectFindsBoundary(Feasible(pc, miss, sigma, lead, target), WHOLE, 0);
    GridRange(j);
  }

  lemma GridRange(j: int)
    requires 0 < j <= CELLS
    ensures LO < Grid(j) <= HI
  {}

  /** When the probability is antitone the result is exactly the least grid point above 0.001 that is not
      refused, or 10 when all below it are; 0.001 itself is never probed. */
  lemma BurnIsLeast(pc: Probability, miss: real, sigma: real, lead: real, target: real) returns (j: int)
    requires Antitone(pc, sigma) && 0.0 <= miss && 0.0 <= lead
    requires Burn(pc, miss, sigma, lead, target).Some?
    ensures 1 <= j <= CELLS && Burn(pc, miss, sigma, lead, target) == Some(Grid(j))
    ensures j < CELLS ==> Feasible(pc, miss, sigma, lead, target)(Grid(j)) == Some(true)
    ensures StartsAt(Feasible(pc, miss, sigma, lead, target), j, 1)
  {
    j := BurnIsABoundary(pc, miss, sigma, lead, target);
    forall k | 1 <= k < CELLS
      ensures k >= j <==> Feasible(pc, miss, sigma, lead, target)(Grid(k)) != Some(false)
    {
      GridMonotone(0, k);
      if k >= j {
        GridMonotone(j, k);
        FeasibleUpward(pc, sigma, target, miss, lead, Grid(j), miss, lead, Grid(k));
      } else {
        GridMonotone(k, j - 1);
        FeasibleUpward(pc, sigma, target, miss, lead, Grid(k), miss, lead, Grid(j - 1));
      }
    }
  }

  ghost predicate LeastOnWholeGrid(trial: Trial, v: real) {
    exists j :: 0 <= j <= CELLS && v == Grid(j) && StartsAt(trial, j, 0)
  }

  /** From grid point j on, and only from there, the grid points not below `from` are not refused. */
  ghost predicate StartsAt(trial: Trial, j: int, from: int) {
    forall k :: from <= k < CELLS ==> (k >= j <==> trial(Grid(k)) != Some(false))
  }

  /** The least point of the whole grid, its lower end included, is returned exactly when 0.001 itself is
      refused. */
  lemma WholeGridExactly(pc: Probability, miss: real, sigma: real, lead: real, target: real)
    requires Antitone(pc, sigma) && 0.0 <= miss && 0.0 <= lead
    requires Burn(pc, miss, sigma, lead, target).Some?
    ensures LeastOnWholeGrid(Feasible(pc, miss, sigma, lead, target), Burn(pc, miss, sigma, lead, target).value)
      <==> Suffices(pc(NewMiss(miss, lead, LO), sigma), target) == Some(false)
  {
    var f := Feasible(pc, miss, sigma, lead, target);
    var j := BurnIsLeast(pc, miss, sigma, lead, target);
    LowerEndDecides(f, j);
    assert f(LO) == Suffices(pc(NewMiss(miss, lead, LO), sigma), target);
  }

  lemma LowerEndDecides(f: Trial, j: int)
    requires 1 <= j <= CELLS && StartsAt(f, j, 1)
    ensures LeastOnWholeGrid(f, Grid(j)) <==> f(LO) == Some(false)
  {
    GridEnds();
    if LeastOnWholeGrid(f, Grid(j)) {
      var i :| 0 <= i <= CELLS && Grid(j) == Grid(i) && StartsAt(f, i, 0);
      GridInjective(i, j);
      assert f(Grid(0)) == Some(false);
    }
    if f(Grid(0)) == Some(false) {
      assert StartsAt(f, j, 0);
    }
  }

  lemma GridInjective(i: int, j: int)
    requires Grid(i) == Grid(j)
    ensures i == j
  {}

  lemma BurnNeverRises(pc: Probability, sigma: real, target: real, miss: real, lead: real, miss': real, lead': real)
    requires Antitone(pc, sigma) && 0.0 <= miss <= miss' && 0.0 <= lead <= lead'
    requires Burn(pc, miss, sigma, lead, target).Some? && Burn(pc, miss', sigma, lead', target).Some?
    ensures Burn(pc, miss', sigma, lead', target).value <= Burn(pc, miss, sigma, lead, target).value
  {
    var j := BurnIsLeast(pc, miss, sigma, lead, target);
    var j' := BurnIsLeast(pc, miss', sigma, lead', target);
    if j < j' {
      GridMonotone(0, j);
      FeasibleUpward(pc, sigma, target, miss, lead, Grid(j), miss', lead', Grid(j));
      assert false;
    }
    GridMonotone(j', j);
  }

  /** The reported delta-v never rises with a larger current miss or a longer lead time. */
  lemma DvNeverRises(pc: Probability, sigma: real, target: real, round4: real -> real,
                     miss: real, lead: real, miss': real, lead': real)
    requires Antitone(pc, sigma) && Monotone(round4)
    requires 0.0 <= miss <= miss' && 0.0 <= lead <= lead'
    ensures var dv, dv' := Rounded(Burn(pc, miss, sigma, lead, target), round4),
                           Rounded(Burn(pc, miss', sigma, lead', target), round4);
      dv.Some? && dv'.Some? ==> dv'.value <= dv.value
  {
    if Burn(pc, miss, sigma, lead, target).Some? && Burn(pc, miss', sigma, lead', target).Some? {
      BurnNeverRises(pc, sigma, target, miss, lead, miss', lead');
    }
  }

  /** A target already met everywhere still costs one grid cell. */
  lemma LowerEndIsNeverReturned(pc: Probability, miss: real, sigma: real, lead: real, target: real)
    requires Burn(pc, miss, sigma, lead, target).Some?
    ensures Burn(pc, miss, sigma, lead, target).value > LO
  {
    var j := BurnIsABoundary(pc, miss, sigma, lead, target);
  }

  const HALF := 549755813888

  /** Unless the burn in the middle is refused, the search has a result exactly when that burn's probability
      can be computed. */
  lemma SearchIsDefinedExactly(pc: Probability, miss: real, sigma: real, lead: real, target: real)
    requires Antitone(pc, sigma) && 0.0 <= miss && 0.0 <= lead
    requires Feasible(pc, miss, sigma, lead, target)(Grid(HALF)) != Some(false)
    ensures Burn(pc, miss, sigma, lead, target).Some? <==> pc(NewMiss(miss, lead, Grid(HALF)), sigma).Some?
  {
    var f := Feasible(pc, miss, sigma, lead, target);
    WholeIsOnGrid();
    HalveOnGrid(f, WHOLE, 0);
    assert Pow2(STEPS - 1) == HALF;
    if f(Grid(HALF)) == Some(true) {
      forall k | 0 < k < HALF
        ensures f(Grid(k)).Some?
      {
        GridMonotone(0, k);
        GridMonotone(k, HALF);
        FeasibleUpward(pc, sigma, target, miss, lead, Grid(k), miss, lead, Grid(HALF));
      }
      BisectIsDefined(f, Halve(f, WHOLE).value, 0);
    }
  }

  /** The search has a result whenever the probability after the largest burn can be computed. */
  lemma SearchIsDefinedNearby(pc: Probability, miss: real, sigma: real, lead: real, target: real)
    requires Antitone(pc, sigma) && 0.0 <= miss && 0.0 <= lead
    requires pc(NewMiss(miss, lead, HI), sigma).Some?
    ensures Burn(pc, miss, sigma, lead, target).Some?
  {
    var f := Feasible(pc, miss, sigma, lead, target);
    GridEnds();
    forall k | 0 < k < CELLS
      ensures f(Grid(k)).Some?
    {
      GridMonotone(0, k);
      GridRange(k);
      FeasibleUpward(pc, sigma, target, miss, lead, Grid(k), miss, lead, HI);
    }
    WholeIsOnGrid();
    BisectIsDefined(f, WHOLE, 0);
  }

  // ---------- generate_maneuver_candidates ----------

  datatype Direction = Prograde | Retrograde | RadialOut
  datatype Candidate = Candidate(deltaV: real, lead: int, direction: Direction, fuel: real, postMiss: real,
                                 postPc: real)

  const DIRECTIONS := [(Prograde, 1.0), (Retrograde, 1.0), (RadialOut, 1.4)]
  const LEADS := [4, 6, 8, 12, 18, 24, 48]

  function Seconds(lead: int): real { (lead * 3600) as real }

  lemma SecondsOrdered(lead: int, lead': int)
    requires 0 <= lead <= lead'
    ensures 0.0 <= Seconds(lead) <= Seconds(lead')
    ensures Seconds(0) == 0.0 && Seconds(lead + 24) == Seconds(lead) + 86400.0
  {}

  /** The decimal roundings of the program. */
  datatype Rounding = Rounding(r1: real -> real, r2: real -> real, r4: real -> real)

  /** The candidate for the outcome of one search; None when that, or the probability after the burn,
      overflowed. */
  function CandidateWith(burn: Option<real>, pc: Probability, miss: real, sigma: real, round: Rounding,
                         lead: int, strategy: (Direction, real)): Option<Candidate>
  {
    if burn.None? then None
    else
      var dv := round.r4(Times(burn.value, strategy.1));
      var newMiss := NewMiss(miss, Seconds(lead), burn.value);
      var post := pc(newMiss, sigma);
      if post.None? then None
      else Some(Candidate(dv, lead, strategy.0, round.r4(dv * 0.05), round.r1(newMiss), post.value))
  }

  function CandidateFor(pc: Probability, miss: real, sigma: real, target: real, round: Rounding,
                        lead: int, strategy: (Direction, real)): Option<Candidate>
  {
    CandidateWith(Burn(pc, miss, sigma, Seconds(lead), target), pc, miss, sigma, round, lead, strategy)
  }

  type Strategy = (Direction, real)
  type Maker = (int, Strategy) -> Option<Candidate>

  /** What a candidate is computed from. */
  datatype Encounter = Encounter(pc: Probability, miss: real, sigma: real, target: real, round: Rounding) {
    function Maker(): Maker {
      (lead: int, strategy: Strategy) => CandidateFor(pc, miss, sigma, target, round, lead, strategy)
    }
  }

  /** One lead time's candidates in order; None when one of them overflows. */
  function Row(make: Maker, lead: int, strategies: seq<Strategy>): Option<seq<Candidate>> {
    if strategies == [] then Some([])
    else
      var n := |strategies| - 1;
      Appended(Row(make, lead, strategies[..n]), make(lead, strategies[n]))
  }

  function Appended<T>(all: Option<seq<T>>, one: Option<T>): Option<seq<T>> {
    if all.None? || one.None? then None else Some(all.value + [one.value])
  }

  /** All lead times' candidates in order. */
  function Table(make: Maker, leads: seq<int>, strategies: seq<Strategy>): Option<seq<Candidate>> {
    if leads == [] then Some([])
    else
      var n := |leads| - 1;
      var before, row := Table(make, leads[..n], strategies), Row(make, leads[n], strategies);
      if before.None? || row.None? then None else Some(before.value + row.value)
  }

  function Generated(e: Encounter): Option<seq<Candidate>> {
    Table(e.Maker(), LEADS, DIRECTIONS)
  }

  lemma {:induction false} TableStaysNone(make: Maker, leads: seq<int>, strategies: seq<Strategy>, k: nat)
    requires k <= |leads| && Table(make, leads[..k], strategies).None?
    ensures Table(make, leads, strategies).None?
  {
    if k < |leads| {
      assert leads[..|leads| - 1][..k] == leads[..k];
      TableStaysNone(make, leads[..|leads| - 1], strategies, k);
    } else {
      assert leads[..k] == leads;
    }
  }

  lemma {:induction false} RowStaysNone(make: Maker, lead: int, strategies: seq<Strategy>, k: nat)
    requires k <= |strategies| && Row(make, lead, strategies[..k]).None?
    ensures Row(make, lead, strategies).None?
  {
    if k < |strategies| {
      assert strategies[..|strategies| - 1][..k] == strategies[..k];
      RowStaysNone(make, lead, strategies[..|strategies| - 1], k);
    } else {
      assert strategies[..k] == strategies;
    }
  }

  ghost predicate RowOverflows(make: Maker, lead: int, strategies: seq<Strategy>) {
    exists d :: 0 <= d < |strategies| && make(lead, strategies[d]).None?
  }

  lemma {:induction false} RowFailsExactly(make: Maker, lead: int, strategies: seq<Strategy>)
    ensures Row(make, lead, strategies).None? <==> RowOverflows(make, lead, strategies)
  {
    if strategies != [] {
      var n := |strategies| - 1;
      RowFailsExactly(make, lead, strategies[..n]);
      assert forall d :: 0 <= d < n ==> strategies[..n][d] == strategies[d];
    }
  }

  /** Nothing is generated exactly when some lead time and direction overflow. */
  lemma {:induction false} TableFailsExactly(make: Maker, leads: seq<int>, strategies: seq<Strategy>)
    ensures Table(make, leads, strategies).None? <==>
            exists l :: 0 <= l < |leads| && RowOverflows(make, leads[l], strategies)
  {
    if leads != [] {
      var n := |leads| - 1;
      TableFailsExactly(make, leads[..n], strategies);
      RowFailsExactly(make, leads[n], strategies);
      assert forall l :: 0 <= l < n ==> leads[..n][l] == leads[l];
    }
  }

  /** Seven lead times by three directions; nothing when one of the candidates overflows. */
  method GenerateManeuverCandidates(e: Encounter) returns (candidates: Option<seq<Candidate>>)
    ensures candidates == Generated(e)
  {
    candidates := GenerateTable(e, LEADS, DIRECTIONS, e.Maker());
  }

  method GenerateTable(e: Encounter, leads: seq<int>, strategies: seq<Strategy>, ghost make: Maker)
    returns (candidates: Option<seq<Candidate>>)
    requires make == e.Maker()
    ensures candidates == Table(make, leads, strategies)
  {
    candidates := Some([]);
    for l := 0 to |leads|
      invariant candidates.Some? && candidates == Table(make, leads[..l], strategies)
    {
      assert leads[..l + 1][..l] == leads[..l];
      var row := GenerateRow(e, leads[l], strategies, make);
      if row.None? {
        TableStaysNone(make, leads, strategies, l + 1);
        return None;
      }
      candidates := Some(candidates.value + row.value);
    }
    assert leads[..|leads|] == leads;
  }

  method GenerateRow(e: Encounter, lead: int, strategies: seq<Strategy>, ghost make: Maker)
    returns (row: Option<seq<Candidate>>)
    requires make == e.Maker()
    ensures row == Row(make, lead, strategies)
  {
    row := Some([]);
    for d := 0 to |strategies|
      invariant row.Some? && row == Row(make, lead, strategies[..d])
    {
      assert strategies[..d + 1][..d] == strategies[..d];
      var c := GenerateOne(e, lead, strategies[d]);
      if c.None? {
        RowStaysNone(make, lead, strategies, d + 1);
        return None;
      }
      row := Some(row.value + [c.value]);
    }
    assert strategies[..|strategies|] == strategies;
  }

  method GenerateOne(e: Encounter, lead: int, strategy: Strategy) returns (c: Option<Candidate>)
    ensures c == e.Maker()(lead, strategy)
  {
    var hi := Search(e.pc, e.miss, e.sigma, Seconds(lead), e.target);
    c := CandidateWith(hi, e.pc, e.miss, e.sigma, e.round, lead, strategy);
  }

  function Key(c: Candidate): (Direction, int) {
    (c.direction, c.lead)
  }

  ghost predicate DistinctKeys(cs: seq<Candidate>) {
    forall i, j :: 0 <= i < j < |cs| ==> Key(cs[i]) != Key(cs[j])
  }

  /** Candidates carry the direction and lead time they were made for. */
  ghost predicate Labels(make: Maker) {
    forall lead, strategy :: make(lead, strategy).Some? ==> Key(make(lead, strategy).value) == (strategy.0, lead)
  }

  lemma {:induction false} RowKeys(make: Maker, lead: int, strategies: seq<Strategy>)
    requires Labels(make) && Row(make, lead, strategies).Some?
    ensures var row := Row(make, lead, strategies).value;
      |row| == |strategies| && forall i :: 0 <= i < |row| ==> Key(row[i]) == (strategies[i].0, lead)
  {
    if strategies != [] {
      var n := |strategies| - 1;
      RowKeys(make, lead, strategies[..n]);
      assert make(lead, strategies[n]).Some?;
    }
  }

  ghost predicate DistinctNumbers(leads: seq<int>) {
    forall i, j :: 0 <= i < j < |leads| ==> leads[i] != leads[j]
  }

  ghost predicate DistinctDirections(strategies: seq<Strategy>) {
    forall i, j :: 0 <= i < j < |strategies| ==> strategies[i].0 != strategies[j].0
  }

  ghost predicate LeadsIn(cs: seq<Candidate>, leads: seq<int>) {
    forall i :: 0 <= i < |cs| ==> cs[i].lead in leads
  }

  /** Candidates of distinct lead times and directions have distinct keys, one for each pair. */
  lemma {:induction false} TableKeys(make: Maker, leads: seq<int>, strategies: seq<Strategy>)
    requires DistinctNumbers(leads) && DistinctDirections(strategies) && Labels(make)
    requires Table(make, leads, strategies).Some?
    ensures var t := Table(make, leads, strategies).value;
      DistinctKeys(t) && LeadsIn(t, leads) && |t| == |leads| * |strategies|
  {
    if leads != [] {
      var n := |leads| - 1;
      TableKeys(make, leads[..n], strategies);
      RowKeys(make, leads[n], strategies);
      JoinKeys(Table(make, leads[..n], strategies).value, Row(make, leads[n], strategies).value, leads[..n], leads[n]);
      assert leads == leads[..n] + [leads[n]];
      OneMoreRow(n, |strategies|);
    }
  }

  lemma OneMoreRow(n: nat, m: nat)
    ensures n * m + m == (n + 1) * m
  {}

  lemma JoinKeys(before: seq<Candidate>, row: seq<Candidate>, leads: seq<int>, lead: int)
    requires DistinctKeys(before) && DistinctKeys(row) && LeadsIn(before, leads) && lead !in leads
    requires forall i :: 0 <= i < |row| ==> row[i].lead == lead
    ensures DistinctKeys(before + row) && LeadsIn(before + row, leads + [lead])
  {}

  /** No two generated candidates share direction and lead time, and there are 21. */
  lemma GeneratedKeysAreDistinct(e: Encounter)
    ensures Generated(e).Some? ==> DistinctKeys(Generated(e).value) && |Generated(e).value| == 21
  {
    if Generated(e).Some? {
      LabelledKeys(e.Maker());
    }
  }

  lemma LabelledKeys(make: Maker)
    requires Labels(make) && Table(make, LEADS, DIRECTIONS).Some?
    ensures var t := Table(make, LEADS, DIRECTIONS).value; DistinctKeys(t) && |t| == 21
  {
    TableKeys(make, LEADS, DIRECTIONS);
  }

  /** Whatever the probability function, a candidate meets the target after its burn unless the search
      ran into the 10 m/s ceiling. */
  lemma CandidateMeetsTarget(pc: Probability, miss: real, sigma: real, target: real, round: Rounding,
                             lead: int, strategy: (Direction, real))
    ensures var c := CandidateFor(pc, miss, sigma, target, round, lead, strategy);
      c.None? || c.value.postPc <= target || Burn(pc, miss, sigma, Seconds(lead), target) == Some(HI)
  {
    var seconds := Seconds(lead);
    if Burn(pc, miss, sigma, seconds, target).Some? {
      var j := BurnIsABoundary(pc, miss, sigma, seconds, target);
      if j < CELLS {
        assert Feasible(pc, miss, sigma, seconds, target)(Grid(j)) == Some(true);
      } else {
        GridEnds();
      }
    }
  }

  /** Among candidates of one direction the one with more warning never costs more. */
  lemma LongerLeadIsCheaper(pc: Probability, miss: real, sigma: real, target: real, round: Rounding,
                            lead: int, lead': int, strategy: (Direction, real))
    requires Antitone(pc, sigma) && Monotone(round.r4)
    requires 0.0 <= miss && 0 <= lead <= lead' && strategy in DIRECTIONS
    ensures var c, c' := CandidateFor(pc, miss, sigma, target, round, lead, strategy),
                         CandidateFor(pc, miss, sigma, target, round, lead', strategy);
      c.Some? && c'.Some? ==> c'.value.deltaV <= c.value.deltaV
  {
    var s, s' := Seconds(lead), Seconds(lead');
    if Burn(pc, miss, sigma, s, target).Some? && Burn(pc, miss, sigma, s', target).Some? {
      BurnNeverRises(pc, sigma, target, miss, s, miss, s');
    }
  }

  /** The candidate c says of its burn b: the cost with the direction's factor, a twentieth of it in fuel, and the
      miss `after` and the probability that b itself leads to. */
  ghost predicate Describes(c: Candidate, b: real, after: real, pc: Probability, miss: real, sigma: real,
                            round: Rounding, lead: int, strategy: Strategy)
  {
    && 2.0 * (after - miss) == Times(b, Seconds(lead))
    && c.lead == lead && c.direction == strategy.0
    && c.deltaV == round.r4(Times(b, strategy.1))
    && c.fuel == round.r4(c.deltaV / 20.0)
    && c.postMiss == round.r1(after) && pc(after, sigma) == Some(c.postPc)
  }

  lemma CandidateMeans(pc: Probability, miss: real, sigma: real, target: real, round: Rounding, lead: int,
                       strategy: Strategy) returns (b: real, after: real)
    ensures var c := CandidateFor(pc, miss, sigma, target, round, lead, strategy);
      c.Some? ==> Burn(pc, miss, sigma, Seconds(lead), target) == Some(b) &&
                  Describes(c.value, b, after, pc, miss, sigma, round, lead, strategy)
  {
    b, after := 0.0, 0.0;
    var burn := Burn(pc, miss, sigma, Seconds(lead), target);
    if burn.Some? {
      b := burn.value;
      after := BurnMeans(b, pc, miss, sigma, round, lead, strategy);
    }
  }

  lemma BurnMeans(b: real, pc: Probability, miss: real, sigma: real, round: Rounding, lead: int, strategy: Strategy)
    returns (after: real)
    ensures var c := CandidateWith(Some(b), pc, miss, sigma, round, lead, strategy);
      c.Some? ==> Describes(c.value, b, after, pc, miss, sigma, round, lead, strategy)
  {
    after := NewMiss(miss, Seconds(lead), b);
    MissGained(miss, Seconds(lead), b);
    Twentieth(round.r4(Times(b, strategy.1)));
  }

  lemma Twentieth(x: real)
    ensures x * 0.05 == x / 20.0
  {}

  /** Candidates of one lead time lead to the same miss and probability; with one factor they cost the same, and
      before rounding the costs are as the factors. */
  lemma Companions(burn: Option<real>, pc: Probability, miss: real, sigma: real, round: Rounding, lead: int,
                   s: Strategy, t: Strategy)
    ensures var c, d := CandidateWith(burn, pc, miss, sigma, round, lead, s),
                        CandidateWith(burn, pc, miss, sigma, round, lead, t);
      c.Some? && d.Some? ==>
        && c.value.postMiss == d.value.postMiss && c.value.postPc == d.value.postPc
        && (s.1 == t.1 ==> c.value.deltaV == d.value.deltaV && c.value.fuel == d.value.fuel)
        && ((forall x: real :: round.r4(x) == x) && s.1 == 1.0 && t.1 == 1.4 ==>
              5.0 * d.value.deltaV == 7.0 * c.value.deltaV)
  {}

  lemma MadeTogether(e: Encounter, lead: int, s: Strategy, t: Strategy)
    ensures var c, d := e.Maker()(lead, s), e.Maker()(lead, t);
      c.Some? && d.Some? ==>
        && c.value.lead == lead && c.value.direction == s.0
        && c.value.postMiss == d.value.postMiss && c.value.postPc == d.value.postPc
        && (s.1 == t.1 ==> c.value.deltaV == d.value.deltaV && c.value.fuel == d.value.fuel)
        && ((forall x: real :: e.round.r4(x) == x) && s.1 == 1.0 && t.1 == 1.4 ==>
              5.0 * d.value.deltaV == 7.0 * c.value.deltaV)
  {
    var burn := Burn(e.pc, e.miss, e.sigma, Seconds(lead), e.target);
    Companions(burn, e.pc, e.miss, e.sigma, e.round, lead, s, t);
  }

  /** A candidate exists exactly when its search and the probability after its burn are computed. */
  lemma CandidateExists(pc: Probability, miss: real, sigma: real, target: real, round: Rounding, lead: int,
                        strategy: Strategy)
    ensures var burn := Burn(pc, miss, sigma, Seconds(lead), target);
      CandidateFor(pc, miss, sigma, target, round, lead, strategy).Some? <==>
      burn.Some? && pc(NewMiss(miss, Seconds(lead), burn.value), sigma).Some?
  {}

  /** All candidates are generated whenever the probability after the largest burn with the longest lead time can
      be computed. */
  lemma GeneratedNearby(e: Encounter)
    requires Antitone(e.pc, e.sigma) && 0.0 <= e.miss && e.pc(NewMiss(e.miss, Seconds(48), 10.0), e.sigma).Some?
    ensures Generated(e).Some?
  {
    TableNearby(e, LEADS, DIRECTIONS, 48);
  }

  lemma TableNearby(e: Encounter, leads: seq<int>, strategies: seq<Strategy>, longest: int)
    requires Antitone(e.pc, e.sigma) && 0.0 <= e.miss && forall l :: 0 <= l < |leads| ==> 0 <= leads[l] <= longest
    requires e.pc(NewMiss(e.miss, Seconds(longest), 10.0), e.sigma).Some?
    ensures Table(e.Maker(), leads, strategies).Some?
  {
    TableFailsExactly(e.Maker(), leads, strategies);
    forall l | 0 <= l < |leads|
      ensures !RowOverflows(e.Maker(), leads[l], strategies)
    {
      RowNearby(e, leads[l], longest, strategies);
    }
  }

  lemma RowNearby(e: Encounter, lead: int, longest: int, strategies: seq<Strategy>)
    requires Antitone(e.pc, e.sigma) && 0.0 <= e.miss && 0 <= lead <= longest
    requires e.pc(NewMiss(e.miss, Seconds(longest), 10.0), e.sigma).Some?
    ensures !RowOverflows(e.Maker(), lead, strategies)
  {
    forall d | 0 <= d < |strategies|
      ensures e.Maker()(lead, strategies[d]).Some?
    {
      MadeNearby(e, lead, longest, strategies[d]);
    }
  }

  lemma MadeNearby(e: Encounter, lead: int, longest: int, strategy: Strategy)
    requires Antitone(e.pc, e.sigma) && 0.0 <= e.miss && 0 <= lead <= longest
    requires e.pc(NewMiss(e.miss, Seconds(longest), 10.0), e.sigma).Some?
    ensures e.Maker()(lead, strategy).Some?
  {
    BurnNearby(e.pc, e.miss, e.sigma, lead, longest, e.target);
    CandidateExists(e.pc, e.miss, e.sigma, e.target, e.round, lead, strategy);
  }

  lemma BurnNearby(pc: Probability, miss: real, sigma: real, lead: int, longest: int, target: real)
    requires Antitone(pc, sigma) && 0.0 <= miss && 0 <= lead <= longest
    requires pc(NewMiss(miss, Seconds(longest), 10.0), sigma).Some?
    ensures var burn := Burn(pc, miss, sigma, Seconds(lead), target);
      burn.Some? && pc(NewMiss(miss, Seconds(lead), burn.value), sigma).Some?
  {
    SecondsOrdered(lead, longest);
    MissGrows(miss, Seconds(lead), HI, miss, Seconds(longest), HI);
    SearchIsDefinedNearby(pc, miss, sigma, Seconds(lead), target);
    var j := BurnIsABoundary(pc, miss, sigma, Seconds(lead), target);
    MissGrows(miss, Seconds(lead), Grid(j), miss, Seconds(lead), HI);
  }

  /** The table in order: the candidate of lead time l and direction d stands at l * |strategies| + d. */
  lemma {:induction false} TableCell(make: Maker, leads: seq<int>, strategies: seq<Strategy>, l: nat, d: nat)
    requires Table(make, leads, strategies).Some? && l < |leads| && d < |strategies|
    ensures var t := Table(make, leads, strategies).value;
      |t| == |leads| * |strategies| && 0 <= l * |strategies| + d < |t|
      && make(leads[l], strategies[d]) == Some(t[l * |strategies| + d])
  {
    var n, m := |leads| - 1, |strategies|;
    RowCell(make, leads[n], strategies, d);
    OneMoreRow(n, m);
    if n == 0 {
      assert Table(make, leads[..0], strategies) == Some([]);
    } else if l < n {
      TableCell(make, leads[..n], strategies, l, d);
    } else {
      TableCell(make, leads[..n], strategies, 0, d);
    }
  }

  lemma {:induction false} RowCell(make: Maker, lead: int, strategies: seq<Strategy>, d: nat)
    requires Row(make, lead, strategies).Some? && d < |strategies|
    ensures var row := Row(make, lead, strategies).value;
      |row| == |strategies| && make(lead, strategies[d]) == Some(row[d])
  {
    var n := |strategies| - 1;
    if d < n {
      RowCell(make, lead, strategies[..n], d);
    } else if n > 0 {
      RowCell(make, lead, strategies[..n], 0);
    }
  }

  /** The 21 generated candidates: for each of 4, 6, 8, 12, 18, 24 and 48 hours one prograde, one retrograde and one
      radial.  They lead to the same miss and probability; the first two cost the same, and before rounding the
      third 1.4 times as much. */
  lemma GeneratedTriple(e: Encounter, l: nat)
    requires Generated(e).Some? && l < 7
    ensures var cs := Generated(e).value;
      |cs| == 21 &&
      var p, r, o := cs[3 * l], cs[3 * l + 1], cs[3 * l + 2];
      && p.direction == Prograde && r.direction == Retrograde && o.direction == RadialOut
      && p.lead == r.lead == o.lead == [4, 6, 8, 12, 18, 24, 48][l]
      && p.postMiss == r.postMiss == o.postMiss && p.postPc == r.postPc == o.postPc
      && p.deltaV == r.deltaV && p.fuel == r.fuel
      && ((forall x: real :: e.round.r4(x) == x) ==> 5.0 * o.deltaV == 7.0 * p.deltaV)
  {
    Cells(e.Maker(), LEADS, DIRECTIONS, l);
    MadeTogether(e, LEADS[l], DIRECTIONS[0], DIRECTIONS[1]);
    MadeTogether(e, LEADS[l], DIRECTIONS[1], DIRECTIONS[0]);
    MadeTogether(e, LEADS[l], DIRECTIONS[0], DIRECTIONS[2]);
    MadeTogether(e, LEADS[l], DIRECTIONS[2], DIRECTIONS[0]);
  }

  lemma Cells(make: Maker, leads: seq<int>, strategies: seq<Strategy>, l: nat)
    requires Table(make, leads, strategies).Some? && l < |leads| && |strategies| == 3
    ensures var t := Table(make, leads, strategies).value;
      && |t| == 3 * |leads|
      && make(leads[l], strategies[0]) == Some(t[3 * l])
      && make(leads[l], strategies[1]) == Some(t[3 * l + 1])
      && make(leads[l], strategies[2]) == Some(t[3 * l + 2])
  {
    TableCell(make, leads, strategies, l, 0);
    TableCell(make, leads, strategies, l, 1);
    TableCell(make, leads, strategies, l, 2);
  }

  // ---------- The lead time offered for a risky pair ----------

  const PAIR_LEADS := [6, 12, 24, 48]
  const CHEAP := 0.5

  function DvAt(pc: Probability, miss: real, sigma: real, round4: real -> real, lead: int): Option<real> {
    Rounded(Burn(pc, miss, sigma, Seconds(lead), 0.000001), round4)
  }

  /** The offer after looking at the lead times from position i on, none before it being cheap. */
  function LeadFrom(pc: Probability, miss: real, sigma: real, round4: real -> real, i: nat): Option<(int, real)>
    requires i <= |PAIR_LEADS|
    decreases |PAIR_LEADS| - i
  {
    var lead := if i == |PAIR_LEADS| then PAIR_LEADS[0] else PAIR_LEADS[i];
    var dv := DvAt(pc, miss, sigma, round4, lead);
    if dv.None? then None
    else if i == |PAIR_LEADS| || dv.value < CHEAP then Some((lead, dv.value))
    else LeadFrom(pc, miss, sigma, round4, i + 1)
  }

  function LeadChoice(pc: Probability, miss: real, sigma: real, round4: real -> real): Option<(int, real)> {
    LeadFrom(pc, miss, sigma, round4, 0)
  }

  predicate Dear(dv: Option<real>) {
    dv.Some? && dv.value >= CHEAP
  }

  /** The first lead time, in the order 6, 12, 24, 48 h, that costs less than 0.5 m/s; else 6 h; nothing
      when a search on the way overflows. */
  method ChooseLead(pc: Probability, miss: real, sigma: real, round4: real -> real) returns (r: Option<(int, real)>)
    ensures r == LeadChoice(pc, miss, sigma, round4)
    ensures r.Some? ==> var (lead, dv) := r.value;
      && lead in {6, 12, 24, 48} && DvAt(pc, miss, sigma, round4, lead) == Some(dv)
      && (dv < 0.5 ==> forall l :: l in PAIR_LEADS && l < lead ==> Dear(DvAt(pc, miss, sigma, round4, l)))
      && (dv >= 0.5 ==> lead == 6 && forall l :: l in PAIR_LEADS ==> Dear(DvAt(pc, miss, sigma, round4, l)))
  {
    var first := None;
    for i := 0 to |PAIR_LEADS|
      invariant i == 0 ==> first == None
      invariant i > 0 ==> first == DvAt(pc, miss, sigma, round4, 6)
      invariant forall k :: 0 <= k < i ==> Dear(DvAt(pc, miss, sigma, round4, PAIR_LEADS[k]))
      invariant LeadChoice(pc, miss, sigma, round4) == LeadFrom(pc, miss, sigma, round4, i)
    {
      var cost := ComputeDv(pc, miss, sigma, Seconds(PAIR_LEADS[i]), 0.000001, round4);
      if cost.None? {
        return None;
      }
      if first == None {
        first := cost;
      }
      if cost.value < CHEAP {
        return Some((PAIR_LEADS[i], cost.value));
      }
    }
    return Some((6, first.value));
  }

  /** What is offered for a lead time is the rounded burn after which the probability is at most one in a million,
      unless that would take more than 10 m/s. */
  lemma OfferMeetsTarget(pc: Probability, miss: real, sigma: real, round4: real -> real, lead: int)
    returns (b: real, after: real)
    ensures DvAt(pc, miss, sigma, round4, lead).Some? ==>
      && DvAt(pc, miss, sigma, round4, lead) == Some(round4(b))
      && 2.0 * (after - miss) == Times(b, Seconds(lead))
      && (b == 10.0 || (pc(after, sigma).Some? && 1000000.0 * pc(after, sigma).value <= 1.0))
  {
    b, after := 0.0, 0.0;
    var seconds := Seconds(lead);
    var burn := Burn(pc, miss, sigma, seconds, 0.000001);
    if burn.Some? {
      b, after := burn.value, NewMiss(miss, seconds, burn.value);
      MissGained(miss, seconds, b);
      TargetMet(pc, miss, sigma, seconds, 0.000001);
    }
  }

  /** With any probability function the target is met after the burn, unless the burn is the ceiling. */
  lemma TargetMet(pc: Probability, miss: real, sigma: real, lead: real, target: real)
    requires Burn(pc, miss, sigma, lead, target).Some?
    ensures var b := Burn(pc, miss, sigma, lead, target).value;
      b == HI || Suffices(pc(NewMiss(miss, lead, b), sigma), target) == Some(true)
  {
    var j := BurnIsABoundary(pc, miss, sigma, lead, target);
    if j < CELLS {
      assert Feasible(pc, miss, sigma, lead, target)(Grid(j)) == Some(true);
    } else {
      GridEnds();
    }
  }

  /** An offer exists whenever the probability after the largest burn two days ahead can be computed. */
  lemma OfferNearby(pc: Probability, miss: real, sigma: real, round4: real -> real)
    requires Antitone(pc, sigma) && 0.0 <= miss && pc(NewMiss(miss, Seconds(48), 10.0), sigma).Some?
    ensures LeadChoice(pc, miss, sigma, round4).Some?
  {
    LeadsNearby(pc, miss, sigma, round4, 0);
  }

  lemma {:induction false} LeadsNearby(pc: Probability, miss: real, sigma: real, round4: real -> real, i: nat)
    requires Antitone(pc, sigma) && 0.0 <= miss && pc(NewMiss(miss, Seconds(48), 10.0), sigma).Some?
    requires i <= |PAIR_LEADS|
    ensures LeadFrom(pc, miss, sigma, round4, i).Some?
    decreases |PAIR_LEADS| - i
  {
    BurnNearby(pc, miss, sigma, if i == |PAIR_LEADS| then PAIR_LEADS[0] else PAIR_LEADS[i], 48, 0.000001);
    if i < |PAIR_LEADS| {
      LeadsNearby(pc, miss, sigma, round4, i + 1);
    }
  }

  /** When no lead time is cheap the offer falls back to 6 h, which costs at least as much as every
      other lead time considered. */
  lemma FallbackIsTheDearest(pc: Probability, miss: real, sigma: real, round4: real -> real, lead: int)
    requires Antitone(pc, sigma) && Monotone(round4) && 0.0 <= miss && lead in PAIR_LEADS
    ensures var dv, six := DvAt(pc, miss, sigma, round4, lead), DvAt(pc, miss, sigma, round4, 6);
      dv.Some? && six.Some? ==> dv.value <= six.value
  {
    DvNeverRises(pc, sigma, 0.000001, round4, miss, Seconds(6), miss, Seconds(lead));
  }
}
