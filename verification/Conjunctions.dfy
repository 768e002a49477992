/** Closest approach on a time grid, the all-pairs analysis of a batch of satellites, and the screening
    of one trajectory against a catalogue. */
module Conjunctions {
  import opened Prelude
  import opened Vectors
  import opened Propagation
  import opened Sorting
  import opened ManeuverSearch

  // ---------- Closest approach on the grid ----------

  function Dist(sqrt: Sqrt, a: V3, b: V3): real {
    sqrt(Norm2(Sub(a, b)))
  }

  /** Index of the first minimum. */
  function FirstMin(d: seq<real>): (k: nat)
    requires d != []
    ensures k < |d|
    ensures forall i :: 0 <= i < |d| ==> d[k] <= d[i]
    ensures forall i :: 0 <= i < k ==> d[k] < d[i]
  {
    if |d| == 1 then 0
    else
      var k := FirstMin(d[..|d| - 1]);
      if d[|d| - 1] < d[k] then |d| - 1 else k
  }

  function Distances(sqrt: Sqrt, t1: seq<State>, t2: seq<State>): seq<real>
    requires |t1| == |t2|
  {
    seq(|t1|, i requires 0 <= i < |t1| => Dist(sqrt, t1[i].p, t2[i].p))
  }

  datatype Approach = Approach(tca: real, miss: real, idx: nat)

  /** Offset, in steps, of the vertex of the parabola through three samples; none for a flat triple. */
  function Vertex(d0: real, d1: real, d2: real): real {
    var denom := d0 - 2.0 * d1 + d2;
    if denom > 0.0000000001 || -denom > 0.0000000001 then 0.5 * (d0 - d2) / denom else 0.0
  }

  /** The time of sample k moved by `offset` steps. */
  function TimeAt(k: nat, offset: real, dt: real): real {
    Times(k as real, dt) + Times(offset, dt)
  }

  lemma TimesOrder(x: real, y: real, dt: real)
    requires x <= y && 0.0 <= dt
    ensures Times(x, dt) <= Times(y, dt)
  {}

  lemma TimesAdd(x: real, y: real, dt: real)
    ensures Times(x + y, dt) == Times(x, dt) + Times(y, dt)
  {}

  /** The samples lie dt apart, the first at time 0. */
  function FindConjunction(d: seq<real>, dt: real): Approach
    requires d != []
  {
    var k := FirstMin(d);
    var offset := if 0 < k < |d| - 1 then Vertex(d[k - 1], d[k], d[k + 1]) else 0.0;
    Approach(TimeAt(k, offset, dt), d[k], k)
  }

  // ---------- What the vertex means ----------

  function Parabola(a: real, t0: real, b: real, t: real): real { Times(a, Sq(t - t0)) + b }

  /** From three samples of any parabola the vertex is recovered exactly, unless the curvature is below the
      threshold. */
  lemma VertexOfParabola(a: real, t0: real, b: real)
    requires 2.0 * a > 0.0000000001 || -2.0 * a > 0.0000000001
    ensures Vertex(Parabola(a, t0, b, -1.0), Parabola(a, t0, b, 0.0), Parabola(a, t0, b, 1.0)) == t0
  {
    var d0, d1, d2 := Parabola(a, t0, b, -1.0), Parabola(a, t0, b, 0.0), Parabola(a, t0, b, 1.0);
    assert d0 == a * (t0 * t0) + 2.0 * (a * t0) + a + b;
    assert d1 == a * (t0 * t0) + b;
    assert d2 == a * (t0 * t0) - 2.0 * (a * t0) + a + b;
    QuotientIs(0.5 * (d0 - d2), d0 - 2.0 * d1 + d2, t0);
  }

  lemma VertexOfFlat(d0: real, d1: real, d2: real)
    ensures -0.0000000001 <= d0 - 2.0 * d1 + d2 <= 0.0000000001 ==> Vertex(d0, d1, d2) == 0.0
  {}

  lemma QuotientIs(num: real, denom: real, q: real)
    requires denom != 0.0 && num == Times(q, denom)
    ensures num / denom == q
  {}

  /** The parabola through d0, d1, d2 at -1, 0, 1. */
  function Through(d0: real, d1: real, d2: real, x: real): real {
    d1 + Times((d2 - d0) / 2.0, x) + Times((d0 - 2.0 * d1 + d2) / 2.0, Sq(x))
  }

  lemma VertexIsLeast(d0: real, d1: real, d2: real, x: real)
    requires d0 - 2.0 * d1 + d2 > 0.0000000001
    ensures Through(d0, d1, d2, Vertex(d0, d1, d2)) <= Through(d0, d1, d2, x)
  {
    var denom := d0 - 2.0 * d1 + d2;
    var v := 0.5 * (d0 - d2) / denom;
    assert v * denom == 0.5 * (d0 - d2);
    LeastOfSquare(denom / 2.0, v, (d2 - d0) / 2.0, x);
  }

  lemma LeastOfSquare(c: real, v: real, m: real, x: real)
    requires c > 0.0 && m == -2.0 * (v * c)
    ensures Times(m, v) + Times(c, Sq(v)) <= Times(m, x) + Times(c, Sq(x))
  {
    assert Times(m, x) + Times(c, Sq(x)) - Times(m, v) - Times(c, Sq(v)) == c * Sq(x - v);
    if x != v {
      SquareOfDifference(x, v);
      ProductPositive(c, Sq(x - v), c * Sq(x - v));
    }
  }

  lemma SquareOfDifference(x: real, v: real)
    requires x != v
    ensures Sq(x - v) > 0.0
  {
    var d := x - v;
    if d > 0.0 {
      ProductPositive(d, d, Sq(d));
    } else {
      ProductPositive(-d, -d, Sq(d));
    }
  }

  /** The distance curve over time through sample k and its neighbours. */
  function Curve(d: seq<real>, k: nat, dt: real, t: real): real
    requires 0 < k < |d| - 1 && dt != 0.0
  {
    Through(d[k - 1], d[k], d[k + 1], (t - Times(k as real, dt)) / dt)
  }

  lemma StepsFrom(k: real, x: real, t: real, dt: real)
    requires dt != 0.0 && t == Times(k, dt) + Times(x, dt)
    ensures (t - Times(k, dt)) / dt == x
  {
    QuotientIs(t - Times(k, dt), dt, x);
  }

  /** At an inner sample the reported time is where the parabola through the sample and its neighbours is least,
      unless the three are flat to 1e-10; there and at the two ends it is the sample's own time. */
  lemma TcaIsLeast(d: seq<real>, dt: real, t: real)
    requires d != [] && dt > 0.0
    ensures var r := FindConjunction(d, dt);
      var k := r.idx;
      k < |d| &&
      if 0 < k < |d| - 1 && d[k - 1] - 2.0 * d[k] + d[k + 1] > 0.0000000001 then
        && Curve(d, k, dt, r.tca) <= Curve(d, k, dt, t)
        && Curve(d, k, dt, r.tca) <= r.miss
        && Curve(d, k, dt, Times(k as real - 1.0, dt)) == d[k - 1]
        && Curve(d, k, dt, Times(k as real, dt)) == d[k]
        && Curve(d, k, dt, Times(k as real + 1.0, dt)) == d[k + 1]
      else r.tca == Times(k as real, dt)
  {
    var k := FirstMin(d);
    if 0 < k < |d| - 1 && d[k - 1] - 2.0 * d[k] + d[k + 1] > 0.0000000001 {
      CurveLeast(d, k, dt, t);
    } else {
      ZeroSteps(dt);
      FlatMinimum(d, k);
    }
  }

  lemma CurveLeast(d: seq<real>, k: nat, dt: real, t: real)
    requires 0 < k < |d| - 1 && dt > 0.0 && d[k - 1] - 2.0 * d[k] + d[k + 1] > 0.0000000001
    ensures var tca := TimeAt(k, Vertex(d[k - 1], d[k], d[k + 1]), dt);
      && Curve(d, k, dt, tca) <= Curve(d, k, dt, t)
      && Curve(d, k, dt, tca) <= d[k]
      && Curve(d, k, dt, Times(k as real - 1.0, dt)) == d[k - 1]
      && Curve(d, k, dt, Times(k as real, dt)) == d[k]
      && Curve(d, k, dt, Times(k as real + 1.0, dt)) == d[k + 1]
  {
    var d0, d1, d2 := d[k - 1], d[k], d[k + 1];
    var offset := Vertex(d0, d1, d2);
    StepsFrom(k as real, offset, TimeAt(k, offset, dt), dt);
    SampleOf(k as real, -1.0, dt);
    SampleOf(k as real, 0.0, dt);
    SampleOf(k as real, 1.0, dt);
    ThroughSamples(d0, d1, d2);
    VertexIsLeast(d0, d1, d2, (t - Times(k as real, dt)) / dt);
    VertexIsLeast(d0, d1, d2, 0.0);
  }

  lemma ZeroSteps(dt: real)
    ensures Times(0.0, dt) == 0.0
  {}

  lemma SampleOf(k: real, x: real, dt: real)
    requires dt != 0.0
    ensures (Times(k + x, dt) - Times(k, dt)) / dt == x
  {
    TimesAdd(k, x, dt);
    StepsFrom(k, x, Times(k + x, dt), dt);
  }

  lemma ThroughSamples(d0: real, d1: real, d2: real)
    ensures Through(d0, d1, d2, -1.0) == d0 && Through(d0, d1, d2, 0.0) == d1 && Through(d0, d1, d2, 1.0) == d2
  {}

  lemma FlatMinimum(d: seq<real>, k: nat)
    requires 0 < k < |d| - 1 ==> d[k] <= d[k - 1] && d[k] <= d[k + 1]
    ensures 0 < k < |d| - 1 ==> d[k - 1] - 2.0 * d[k] + d[k + 1] >= 0.0
  {}

  /** At a strict-then-weak minimum the vertex lies within half a step. */
  lemma VertexWithinHalf(d0: real, d1: real, d2: real)
    requires d1 < d0 && d1 <= d2
    ensures -0.5 <= Vertex(d0, d1, d2) <= 0.5
  {
    var denom := d0 - 2.0 * d1 + d2;
    var q := (d0 - d2) / denom;
    assert q * denom == d0 - d2;
    assert -1.0 <= q <= 1.0;
    assert 0.5 * (d0 - d2) / denom == 0.5 * q;
  }

  lemma TimeAtBounds(k: nat, n: nat, offset: real, dt: real)
    requires 0.0 <= dt && k < n && -0.5 <= offset <= 0.5
    requires k == 0 || k == n - 1 ==> offset == 0.0
    ensures TimeAt(k, 0.0, dt) - 0.5 * dt <= TimeAt(k, offset, dt) <= TimeAt(k, 0.0, dt) + 0.5 * dt
    ensures 0.0 <= TimeAt(k, offset, dt) <= TimeAt(n - 1, 0.0, dt)
  {
    var x, last := k as real, (n - 1) as real;
    TimesOrder(-0.5, offset, dt);
    TimesOrder(offset, 0.5, dt);
    TimesAdd(x, offset, dt);
    if 0 < k < n - 1 {
      TimesOrder(0.0, x + offset, dt);
      TimesOrder(x + offset, last, dt);
    } else {
      TimesOrder(0.0, x, dt);
      TimesOrder(x, last, dt);
    }
    assert Times(0.0, dt) == 0.0 && Times(0.5, dt) == 0.5 * dt && Times(-0.5, dt) == -0.5 * dt;
  }

  /** The reported index is the first minimum of the sampled distances, the reported miss its value, and
      the time of closest approach lies within half a step of it and inside the sampled span. */
  lemma ClosestApproachIsSound(d: seq<real>, dt: real)
    requires d != [] && 0.0 <= dt
    ensures var r := FindConjunction(d, dt);
      && r.idx < |d| && r.miss == d[r.idx]
      && (forall i :: 0 <= i < |d| ==> r.miss <= d[i])
      && (forall i :: 0 <= i < r.idx ==> r.miss < d[i])
      && TimeAt(r.idx, 0.0, dt) - 0.5 * dt <= r.tca <= TimeAt(r.idx, 0.0, dt) + 0.5 * dt
      && 0.0 <= r.tca <= TimeAt(|d| - 1, 0.0, dt)
  {
    var k := FirstMin(d);
    if 0 < k < |d| - 1 {
      VertexWithinHalf(d[k - 1], d[k], d[k + 1]);
      TimeAtBounds(k, |d|, Vertex(d[k - 1], d[k], d[k + 1]), dt);
    } else {
      TimeAtBounds(k, |d|, 0.0, dt);
    }
  }

  // ---------- Batch analysis ----------

  function RiskLevel(pc: real, miss: real): Risk {
    if pc > 0.0001 || miss < 200.0 then Red
    else if pc > 0.00001 || miss < 1000.0 then Yellow
    else Green
  }

  function Rank(r: Risk): nat {
    match r case Red => 0 case Yellow => 1 case Green => 2
  }

  /** The colours by their limits: RED above 1e-4 or under 200 m, GREEN from 1e-5 down and from a kilometre up. */
  lemma RiskByLimits(pc: real, miss: real)
    ensures RiskLevel(pc, miss) == Red <==> 10000.0 * pc > 1.0 || miss < 200.0
    ensures RiskLevel(pc, miss) == Green <==> 100000.0 * pc <= 1.0 && miss >= 1000.0
  {}

  /** With equal uncertainty a closer pair is never judged safer, and one under a kilometre is never green. */
  lemma CloserIsNoSafer(pc: Probability, sigma: real, miss: real, miss': real)
    requires Antitone(pc, sigma) && 0.0 <= miss <= miss' && pc(miss', sigma).Some?
    ensures pc(miss, sigma).Some?
    ensures Rank(RiskLevel(pc(miss, sigma).value, miss)) <= Rank(RiskLevel(pc(miss', sigma).value, miss'))
    ensures miss < 1000.0 ==> RiskLevel(pc(miss, sigma).value, miss) != Green
  {
    assert pc(miss', sigma).value <= pc(miss, sigma).value;
  }

  datatype Ident = Ident(name: string, norad: string, sigma: real)
  datatype Satellite = Satellite(id: Ident, orbit: Orbit)

  /** What the analysis is computed with: root, probability and decimal roundings. */
  datatype Maths = Maths(sqrt: Sqrt, pc: Probability, round: Rounding)

  datatype Track = Ready(sat: Satellite, states: seq<State>) | Failed(sat: Satellite)

  datatype PairResult = PairResult(
    sat1: string, sat2: string, norad1: string, norad2: string, tca: real, miss: real, relSpeed: real,
    pc: real, risk: Risk, sigma: real, maneuver: Option<(int, real)>)
    | PairError(sat1: string, sat2: string)

  function TrackOf(m: Maths, sat: Satellite, dt: real, steps: nat): Track {
    var start := ToEci(m.sqrt, sat.orbit);
    if start.None? then Failed(sat)
    else
      var t := Propagation.Track(m.sqrt, start.value, dt, steps);
      if t.None? then Failed(sat) else Ready(sat, t.value)
  }

  /** The dictionary of tracks by name, in order of first appearance; a repeated name replaces the value. */
  function Put(tracks: seq<Track>, t: Track): seq<Track> {
    if tracks == [] then [t]
    else if tracks[0].sat.id.name == t.sat.id.name then [t] + tracks[1..]
    else [tracks[0]] + Put(tracks[1..], t)
  }

  function Tracks(m: Maths, sats: seq<Satellite>, dt: real, steps: nat): seq<Track> {
    if sats == [] then []
    else Put(Tracks(m, sats[..|sats| - 1], dt, steps), TrackOf(m, sats[|sats| - 1], dt, steps))
  }

  /** The distinct names in order of first appearance. */
  function Firsts(sats: seq<Satellite>): seq<string> {
    if sats == [] then []
    else
      var names, name := Firsts(sats[..|sats| - 1]), sats[|sats| - 1].id.name;
      if name in names then names else names + [name]
  }

  function Names(tracks: seq<Track>): seq<string> {
    seq(|tracks|, i requires 0 <= i < |tracks| => tracks[i].sat.id.name)
  }

  ghost predicate AllDifferent<T>(s: seq<T>) {
    forall i, j :: 0 <= i < j < |s| ==> s[i] != s[j]
  }

  lemma {:induction false} FirstsFacts(sats: seq<Satellite>)
    ensures AllDifferent(Firsts(sats)) && forall i :: 0 <= i < |sats| ==> sats[i].id.name in Firsts(sats)
  {
    if sats != [] {
      FirstsFacts(sats[..|sats| - 1]);
      assert forall i :: 0 <= i < |sats| - 1 ==> sats[..|sats| - 1][i] == sats[i];
    }
  }

  /** One track for each name, in order of first appearance. */
  lemma {:induction false} TracksByName(m: Maths, sats: seq<Satellite>, dt: real, steps: nat)
    ensures Names(Tracks(m, sats, dt, steps)) == Firsts(sats)
    ensures AllDifferent(Firsts(sats)) && forall i :: 0 <= i < |sats| ==> sats[i].id.name in Firsts(sats)
  {
    FirstsFacts(sats);
    if sats != [] {
      var init, last := sats[..|sats| - 1], sats[|sats| - 1];
      TracksByName(m, init, dt, steps);
      PutNames(Tracks(m, init, dt, steps), TrackOf(m, last, dt, steps));
    }
  }

  /** The track of each satellite, repeated names included. */
  function AllTracks(m: Maths, sats: seq<Satellite>, dt: real, steps: nat): seq<Track> {
    seq(|sats|, i requires 0 <= i < |sats| => TrackOf(m, sats[i], dt, steps))
  }

  function PutAll(all: seq<Track>): seq<Track> {
    if all == [] then [] else Put(PutAll(all[..|all| - 1]), all[|all| - 1])
  }

  /** t is the last of its name. */
  ghost predicate IsLatest(all: seq<Track>, t: Track) {
    exists i :: 0 <= i < |all| && t == all[i] && forall j :: i < j < |all| ==> all[j].sat.id.name != t.sat.id.name
  }

  ghost predicate AllLatest(all: seq<Track>, tracks: seq<Track>) {
    forall t :: t in tracks ==> IsLatest(all, t)
  }

  /** A repeated name keeps the track of the last satellite of that name. */
  lemma TracksAreLatest(m: Maths, sats: seq<Satellite>, dt: real, steps: nat)
    ensures AllLatest(AllTracks(m, sats, dt, steps), Tracks(m, sats, dt, steps))
  {
    TracksArePut(m, sats, dt, steps);
    PutAllIsLatest(AllTracks(m, sats, dt, steps));
  }

  lemma {:induction false} TracksArePut(m: Maths, sats: seq<Satellite>, dt: real, steps: nat)
    ensures Tracks(m, sats, dt, steps) == PutAll(AllTracks(m, sats, dt, steps))
  {
    if sats != [] {
      TracksArePut(m, sats[..|sats| - 1], dt, steps);
      var all := AllTracks(m, sats, dt, steps);
      assert all[..|all| - 1] == AllTracks(m, sats[..|sats| - 1], dt, steps);
    }
  }

  lemma {:induction false} PutAllIsLatest(all: seq<Track>)
    ensures AllDifferent(Names(PutAll(all))) && AllLatest(all, PutAll(all))
  {
    if all != [] {
      var init, last := all[..|all| - 1], all[|all| - 1];
      PutAllIsLatest(init);
      PutKeepsDifferent(PutAll(init), last);
      PutKeepsLatest(PutAll(init), init, last);
      assert all == init + [last];
    }
  }

  lemma PutKeepsDifferent(tracks: seq<Track>, t: Track)
    requires AllDifferent(Names(tracks))
    ensures AllDifferent(Names(Put(tracks, t)))
  {
    PutNames(tracks, t);
    AppendKeepsDifferent(Names(tracks), t.sat.id.name);
  }

  lemma AppendKeepsDifferent<T>(s: seq<T>, x: T)
    requires AllDifferent(s)
    ensures x !in s ==> AllDifferent(s + [x])
  {}

  lemma PutKeepsLatest(tracks: seq<Track>, init: seq<Track>, last: Track)
    requires AllDifferent(Names(tracks)) && AllLatest(init, tracks)
    ensures AllLatest(init + [last], Put(tracks, last))
  {
    PutMembers(tracks, last);
    forall x | x in Put(tracks, last)
      ensures IsLatest(init + [last], x)
    {
      LatestAfter(init, last, x);
    }
  }

  lemma LatestAfter(init: seq<Track>, last: Track, x: Track)
    requires x == last || (IsLatest(init, x) && x.sat.id.name != last.sat.id.name)
    ensures IsLatest(init + [last], x)
  {
    var all := init + [last];
    if x == last {
      assert all[|init|] == last;
    } else {
      var i :| 0 <= i < |init| && x == init[i] && forall j :: i < j < |init| ==> init[j].sat.id.name != x.sat.id.name;
      assert all[i] == init[i];
    }
  }

  /** Storing under a name replaces the entry of that name, or appends one. */
  lemma {:induction false} PutNames(tracks: seq<Track>, t: Track)
    ensures Names(Put(tracks, t)) ==
            if t.sat.id.name in Names(tracks) then Names(tracks) else Names(tracks) + [t.sat.id.name]
  {
    if tracks != [] {
      NamesCons(tracks[0], tracks[1..]);
      assert tracks == [tracks[0]] + tracks[1..];
      PutNames(tracks[1..], t);
      NamesCons(t, tracks[1..]);
      NamesCons(tracks[0], Put(tracks[1..], t));
    }
  }

  lemma NamesCons(x: Track, rest: seq<Track>)
    ensures Names([x] + rest) == [x.sat.id.name] + Names(rest)
  {}

  lemma {:induction false} PutMembers(tracks: seq<Track>, t: Track)
    requires AllDifferent(Names(tracks))
    ensures forall x :: x in Put(tracks, t) ==> x == t || (x in tracks && x.sat.id.name != t.sat.id.name)
  {
    if tracks != [] {
      var rest := tracks[1..];
      NamesCons(tracks[0], rest);
      assert tracks == [tracks[0]] + rest;
      if tracks[0].sat.id.name == t.sat.id.name {
        HeadIsAlone(tracks);
      } else {
        TailDifferent(Names(tracks));
        PutMembers(rest, t);
      }
    }
  }

  lemma TailDifferent<T>(s: seq<T>)
    requires s != [] && AllDifferent(s)
    ensures AllDifferent(s[1..])
  {}

  lemma HeadIsAlone(tracks: seq<Track>)
    requires tracks != [] && AllDifferent(Names(tracks))
    ensures forall x :: x in tracks[1..] ==> x.sat.id.name != tracks[0].sat.id.name
  {
    forall x | x in tracks[1..]
      ensures x.sat.id.name != tracks[0].sat.id.name
    {
      var i :| 0 <= i < |tracks[1..]| && tracks[1..][i] == x;
      assert Names(tracks)[0] != Names(tracks)[i + 1];
    }
  }

  function Valid(tracks: seq<Track>): seq<Track> {
    if tracks == [] then []
    else (if tracks[0].Ready? then [tracks[0]] else []) + Valid(tracks[1..])
  }

  /** The verdict on a pair from its closest approach and the square of its relative speed there; an
      overflow, in the probability or in the search for a maneuver, gives an error entry. */
  function Judge(m: Maths, a: Ident, b: Ident, near: Approach, speed2: real): PairResult {
    JudgeAt(m, a, b, near, speed2, CombinedSigma(m, a, b))
  }

  function CombinedSigma(m: Maths, a: Ident, b: Ident): real {
    m.sqrt(Sq(a.sigma) + Sq(b.sigma))
  }

  function JudgeAt(m: Maths, a: Ident, b: Ident, near: Approach, speed2: real, sigma: real): PairResult {
    var pc := m.pc(near.miss, sigma);
    if pc.None? then PairError(a.name, b.name)
    else
      var risk := RiskLevel(pc.value, near.miss);
      var offer := LeadChoice(m.pc, near.miss, sigma, m.round.r4);
      if !risk.Green? && offer.None? then PairError(a.name, b.name)
      else PairResult(a.name, b.name, a.norad, b.norad, near.tca, m.round.r1(near.miss), m.round.r1(m.sqrt(speed2)),
                      pc.value, risk, m.round.r1(sigma), if risk.Green? then None else offer)
  }

  /** A pair too far apart for its probability to be computed is reported as an error, and so is every pair
      farther apart with the same uncertainty: the farthest pairs are not green but unknown. */
  lemma FarPairsAreErrors(m: Maths, a: Ident, b: Ident, near: Approach, far: Approach, speed2: real, speed2': real,
                          sigma: real)
    requires Antitone(m.pc, sigma) && m.pc(near.miss, sigma).None? && 0.0 <= near.miss <= far.miss
    ensures JudgeAt(m, a, b, near, speed2, sigma) == PairError(a.name, b.name)
    ensures JudgeAt(m, a, b, far, speed2', sigma) == PairError(a.name, b.name)
  {
    assert m.pc(far.miss, sigma).None?;
  }

  /** The result for one pair; tracks that cannot be compared give an error entry. */
  function Analyze(m: Maths, a: Track, b: Track, dt: real): PairResult {
    if a.Failed? || b.Failed? || |a.states| != |b.states| || a.states == [] then PairError(a.sat.id.name, b.sat.id.name)
    else
      var near := FindConjunction(Distances(m.sqrt, a.states, b.states), dt);
      Judge(m, a.sat.id, b.sat.id, near, Norm2(Sub(a.states[near.idx].v, b.states[near.idx].v)))
  }

  /** What the entry r says of two objects whose closest approach at `tca` has the distance `near`, the relative
      speed `speed` and the combined uncertainty sigma: a maneuver is offered exactly for a pair that is not green,
      and an error means that the probability, or the maneuver needed, could not be computed. */
  ghost predicate Verdict(m: Maths, a: Ident, b: Ident, tca: real, near: real, speed: real, sigma: real,
                          r: PairResult)
  {
    var pc, offer := m.pc(near, sigma), LeadChoice(m.pc, near, sigma, m.round.r4);
    && r.sat1 == a.name && r.sat2 == b.name
    && (r.PairError? <==> pc.None? || (RiskLevel(pc.value, near) != Green && offer.None?))
    && (r.PairResult? ==>
          && r.norad1 == a.norad && r.norad2 == b.norad && r.tca == tca
          && r.miss == m.round.r1(near) && r.relSpeed == m.round.r1(speed) && r.sigma == m.round.r1(sigma)
          && Some(r.pc) == pc && r.risk == RiskLevel(r.pc, near)
          && (r.maneuver.Some? <==> r.risk != Green)
          && (r.maneuver.Some? ==> r.maneuver == offer))
  }

  /** What a pair's result says, in terms of the two tracks: the sample k is the first at which the objects are
      nearest, `near` their distance there, `speed` their relative speed, and sigma^2 the sum of the two squared
      uncertainties. */
  lemma PairResultMeans(m: Maths, a: Track, b: Track, dt: real) returns (k: nat, near: real, speed: real, sigma: real)
    requires IsRoot(m.sqrt) && a.Ready? && b.Ready? && |a.states| == |b.states| > 0
    ensures k < |a.states| && near >= 0.0 && speed >= 0.0 && sigma >= 0.0
    ensures Sq(near) == Norm2(Sub(a.states[k].p, b.states[k].p))
    ensures forall i :: 0 <= i < |a.states| ==> Sq(near) <= Norm2(Sub(a.states[i].p, b.states[i].p))
    ensures forall i :: 0 <= i < k ==> Sq(near) < Norm2(Sub(a.states[i].p, b.states[i].p))
    ensures Sq(speed) == Norm2(Sub(a.states[k].v, b.states[k].v))
    ensures Sq(sigma) == Sq(a.sat.id.sigma) + Sq(b.sat.id.sigma)
    ensures var found := FindConjunction(Distances(m.sqrt, a.states, b.states), dt);
      Verdict(m, a.sat.id, b.sat.id, found.tca, near, speed, sigma, Analyze(m, a, b, dt))
  {
    k, near := NearestSample(m.sqrt, a.states, b.states, dt);
    RootOf(m.sqrt, Sub(a.states[k].v, b.states[k].v));
    speed := m.sqrt(Norm2(Sub(a.states[k].v, b.states[k].v)));
    SumOfSquares(m.sqrt, a.sat.id.sigma, b.sat.id.sigma);
    sigma := CombinedSigma(m, a.sat.id, b.sat.id);
    var found := FindConjunction(Distances(m.sqrt, a.states, b.states), dt);
    AnalyzeJudges(m, a, b, dt);
    JudgeMeans(m, a.sat.id, b.sat.id, found, Norm2(Sub(a.states[k].v, b.states[k].v)), sigma);
  }

  lemma AnalyzeJudges(m: Maths, a: Track, b: Track, dt: real)
    requires a.Ready? && b.Ready? && |a.states| == |b.states| > 0
    ensures var found := FindConjunction(Distances(m.sqrt, a.states, b.states), dt);
      Analyze(m, a, b, dt) == JudgeAt(m, a.sat.id, b.sat.id, found,
                                      Norm2(Sub(a.states[found.idx].v, b.states[found.idx].v)),
                                      CombinedSigma(m, a.sat.id, b.sat.id))
  {}

  lemma JudgeMeans(m: Maths, a: Ident, b: Ident, found: Approach, speed2: real, sigma: real)
    ensures Verdict(m, a, b, found.tca, found.miss, m.sqrt(speed2), sigma, JudgeAt(m, a, b, found, speed2, sigma))
  {}

  lemma NearestSample(sqrt: Sqrt, t1: seq<State>, t2: seq<State>, dt: real) returns (k: nat, near: real)
    requires IsRoot(sqrt) && |t1| == |t2| > 0
    ensures k < |t1| && near >= 0.0 && Sq(near) == Norm2(Sub(t1[k].p, t2[k].p))
    ensures var found := FindConjunction(Distances(sqrt, t1, t2), dt);
      k == found.idx && near == found.miss
    ensures forall i :: 0 <= i < |t1| ==> Sq(near) <= Norm2(Sub(t1[i].p, t2[i].p))
    ensures forall i :: 0 <= i < k ==> Sq(near) < Norm2(Sub(t1[i].p, t2[i].p))
  {
    var d := Distances(sqrt, t1, t2);
    k, near := FirstMin(d), d[FirstMin(d)];
    RootOf(sqrt, Sub(t1[k].p, t2[k].p));
    forall i | 0 <= i < |t1|
      ensures Sq(near) <= Norm2(Sub(t1[i].p, t2[i].p))
      ensures i < k ==> Sq(near) < Norm2(Sub(t1[i].p, t2[i].p))
    {
      RootOf(sqrt, Sub(t1[i].p, t2[i].p));
      assert d[i] == Dist(sqrt, t1[i].p, t2[i].p);
      SquaresOrdered(near, d[i]);
    }
  }

  lemma RootOf(sqrt: Sqrt, v: V3)
    requires IsRoot(sqrt)
    ensures sqrt(Norm2(v)) >= 0.0 && Sq(sqrt(Norm2(v))) == Norm2(v)
  {
    assert Norm2(v) >= 0.0;
    assert Sq(sqrt(Norm2(v))) == Norm2(v);
  }

  lemma SumOfSquares(sqrt: Sqrt, x: real, y: real)
    requires IsRoot(sqrt)
    ensures sqrt(Sq(x) + Sq(y)) >= 0.0 && Sq(sqrt(Sq(x) + Sq(y))) == Sq(x) + Sq(y)
  {
    assert Sq(x) >= 0.0 && Sq(y) >= 0.0;
    assert Sq(sqrt(Sq(x) + Sq(y))) == Sq(x) + Sq(y);
  }

  lemma SquaresOrdered(x: real, y: real)
    requires 0.0 <= x && 0.0 <= y
    ensures x <= y ==> Sq(x) <= Sq(y)
    ensures x < y ==> Sq(x) < Sq(y)
  {
    if Sq(y) <= Sq(x) {
      SquareOrder(y, x);
    }
  }

  function Analyzer(m: Maths, dt: real): (Track, Track) -> PairResult {
    (a: Track, b: Track) => Analyze(m, a, b, dt)
  }

  /** One element against all later ones. */
  function Row<T, R>(f: (T, T) -> R, a: T, later: seq<T>): seq<R> {
    if later == [] then [] else Row(f, a, later[..|later| - 1]) + [f(a, later[|later| - 1])]
  }

  /** The first i elements, each against all later ones. */
  function Pairs<T, R>(f: (T, T) -> R, s: seq<T>, i: nat): seq<R>
    requires i <= |s|
  {
    if i == 0 then [] else Pairs(f, s, i - 1) + Row(f, s[i - 1], s[i..])
  }

  function Severity(r: PairResult): nat {
    if r.PairError? then 3 else Rank(r.risk)
  }

  function SortMiss(r: PairResult): real {
    if r.PairError? then 999999.0 else r.miss
  }

  function WorstFirst(): (PairResult, PairResult) -> bool {
    (a: PairResult, b: PairResult) =>
      Severity(a) < Severity(b) || (Severity(a) == Severity(b) && SortMiss(a) <= SortMiss(b))
  }

  lemma {:induction false} RowLength<T, R>(f: (T, T) -> R, a: T, later: seq<T>)
    ensures |Row(f, a, later)| == |later|
    ensures forall j :: 0 <= j < |later| ==> Row(f, a, later)[j] == f(a, later[j])
  {
    if later != [] {
      RowLength(f, a, later[..|later| - 1]);
    }
  }

  /** n elements make n (n - 1) / 2 pairs. */
  lemma {:induction false} PairCount<T, R>(f: (T, T) -> R, s: seq<T>, i: nat)
    requires i <= |s|
    ensures 2 * |Pairs(f, s, i)| == i * (2 * |s| - i - 1)
  {
    if i > 0 {
      PairCount(f, s, i - 1);
      RowLength(f, s[i - 1], s[i..]);
      assert i * (2 * |s| - i - 1) == (i - 1) * (2 * |s| - i) + 2 * (|s| - i);
    }
  }

  /** Exactly the pairs of an earlier with a later element. */
  lemma {:induction false} PairsAreComplete<T, R>(f: (T, T) -> R, s: seq<T>, i: nat)
    requires i <= |s|
    ensures forall r :: r in Pairs(f, s, i) <==> exists a, b :: 0 <= a < i && a < b < |s| && r == f(s[a], s[b])
  {
    if i > 0 {
      PairsAreComplete(f, s, i - 1);
      var row := Row(f, s[i - 1], s[i..]);
      RowLength(f, s[i - 1], s[i..]);
      forall b | i <= b < |s|
        ensures f(s[i - 1], s[b]) in row
      {
        assert row[b - i] == f(s[i - 1], s[i..][b - i]);
      }
      forall r | r in row
        ensures exists b :: i - 1 < b < |s| && r == f(s[i - 1], s[b])
      {
        var j :| 0 <= j < |row| && row[j] == r;
        assert r == f(s[i - 1], s[i + j]);
      }
    }
  }

  lemma {:induction false} ValidFacts(tracks: seq<Track>)
    ensures forall t :: t in Valid(tracks) <==> t in tracks && t.Ready?
  {
    if tracks != [] {
      assert tracks == [tracks[0]] + tracks[1..];
      ValidFacts(tracks[1..]);
    }
  }

  /** All unordered pairs of valid tracks, in order, then sorted by risk and miss distance. */
  function Analyzed(m: Maths, sats: seq<Satellite>, dt: real, steps: nat): seq<PairResult> {
    Ranked(m, Valid(Tracks(m, sats, dt, steps)), dt)
  }

  function Ranked(m: Maths, valid: seq<Track>, dt: real): seq<PairResult> {
    SortBy(Pairs(Analyzer(m, dt), valid, |valid|), WorstFirst())
  }

  /** The batch result holds every pair of valid tracks once, the riskiest and then the closest first. */
  lemma BatchIsRanked(m: Maths, sats: seq<Satellite>, dt: real, steps: nat)
    ensures var valid, results := Valid(Tracks(m, sats, dt, steps)), Analyzed(m, sats, dt, steps);
      && SortedBy(results, WorstFirst())
      && 2 * |results| == |valid| * (|valid| - 1)
      && forall r :: r in results <==> IsResult(m, valid, dt, r)
  {
    TracksAreRanked(m, Valid(Tracks(m, sats, dt, steps)), dt);
  }

  lemma TracksAreRanked(m: Maths, valid: seq<Track>, dt: real)
    ensures SortedBy(Ranked(m, valid, dt), WorstFirst())
    ensures 2 * |Ranked(m, valid, dt)| == |valid| * (|valid| - 1)
    ensures forall r :: r in Ranked(m, valid, dt) <==> IsResult(m, valid, dt, r)
  {
    RankedPairs(Pairs(Analyzer(m, dt), valid, |valid|));
    AllPairsCount(Analyzer(m, dt), valid);
    RankedMembers(m, valid, dt);
  }

  /** r is the result for an earlier and a later track. */
  ghost predicate IsResult(m: Maths, valid: seq<Track>, dt: real, r: PairResult) {
    exists a, b :: 0 <= a < b < |valid| && r == Analyze(m, valid[a], valid[b], dt)
  }

  lemma ResultIsPair(m: Maths, valid: seq<Track>, dt: real, r: PairResult)
    ensures IsResult(m, valid, dt, r) <==> IsPair(Analyzer(m, dt), valid, r)
  {
    if a, b :| 0 <= a < b < |valid| && r == Analyze(m, valid[a], valid[b], dt) {
      assert r == Analyzer(m, dt)(valid[a], valid[b]);
    }
    if IsPair(Analyzer(m, dt), valid, r) {
      var a, b :| 0 <= a < b < |valid| && r == Analyzer(m, dt)(valid[a], valid[b]);
      assert r == Analyze(m, valid[a], valid[b], dt);
    }
  }

  /** The order of the batch result in words: RED before YELLOW before GREEN before errors, and within a colour the
      nearer first. */
  lemma BatchOrder(m: Maths, sats: seq<Satellite>, dt: real, steps: nat, i: nat, j: nat)
    requires i < j < |Analyzed(m, sats, dt, steps)|
    ensures var a, b := Analyzed(m, sats, dt, steps)[i], Analyzed(m, sats, dt, steps)[j];
      && (a.PairError? ==> b.PairError?)
      && (a.PairResult? && b.PairResult? ==>
            && (b.risk == Red ==> a.risk == Red)
            && (b.risk == Yellow ==> a.risk != Green)
            && (a.risk == b.risk ==> a.miss <= b.miss))
  {
    BatchIsRanked(m, sats, dt, steps);
    var results := Analyzed(m, sats, dt, steps);
    assert WorstFirst()(results[i], results[j]);
  }

  lemma RankedMembers(m: Maths, valid: seq<Track>, dt: real)
    ensures forall r :: r in SortBy(Pairs(Analyzer(m, dt), valid, |valid|), WorstFirst()) <==> IsResult(m, valid, dt, r)
  {
    var pairs := Pairs(Analyzer(m, dt), valid, |valid|);
    forall r
      ensures r in SortBy(pairs, WorstFirst()) <==> IsResult(m, valid, dt, r)
    {
      WorstFirstIsOrder();
      SortMembers(pairs, WorstFirst(), r);
      PairMembers(Analyzer(m, dt), valid, r);
      ResultIsPair(m, valid, dt, r);
    }
  }

  lemma RankedPairs(pairs: seq<PairResult>)
    ensures SortedBy(SortBy(pairs, WorstFirst()), WorstFirst())
    ensures |SortBy(pairs, WorstFirst())| == |pairs|
  {
    WorstFirstIsOrder();
    SortFacts(pairs, WorstFirst());
  }

  lemma WorstFirstIsOrder()
    ensures TotalPreorder(WorstFirst())
  {}

  lemma AllPairsCount<T, R>(f: (T, T) -> R, s: seq<T>)
    ensures 2 * |Pairs(f, s, |s|)| == |s| * (|s| - 1)
  {
    PairCount(f, s, |s|);
  }

  /** r is the result for an earlier and a later element. */
  ghost predicate IsPair<T, R>(f: (T, T) -> R, s: seq<T>, r: R) {
    exists a, b :: 0 <= a < b < |s| && r == f(s[a], s[b])
  }

  lemma PairMembers<T, R>(f: (T, T) -> R, s: seq<T>, r: R)
    ensures r in Pairs(f, s, |s|) <==> IsPair(f, s, r)
  {
    PairsAreComplete(f, s, |s|);
    if r in Pairs(f, s, |s|) {
      var a, b :| 0 <= a < |s| && a < b < |s| && r == f(s[a], s[b]);
    }
    if a, b :| 0 <= a < b < |s| && r == f(s[a], s[b]) {
      assert 0 <= a < |s| && a < b < |s|;
    }
  }

  method AnalyzeBatch(m: Maths, sats: seq<Satellite>, hours: nat, dtSec: nat) returns (results: seq<PairResult>)
    requires dtSec > 0
    ensures results == Analyzed(m, sats, dtSec as real, hours * 3600 / dtSec)
  {
    var steps := hours * 3600 / dtSec;
    var dt := dtSec as real;
    var tracks := BuildTracks(m, sats, dt, steps);
    results := AllPairs(Analyzer(m, dt), Valid(tracks));
    results := SortBy(results, WorstFirst());
  }

  method BuildTracks(m: Maths, sats: seq<Satellite>, dt: real, steps: nat) returns (tracks: seq<Track>)
    ensures tracks == Tracks(m, sats, dt, steps)
  {
    tracks := [];
    for i := 0 to |sats|
      invariant tracks == Tracks(m, sats[..i], dt, steps)
    {
      assert sats[..i + 1][..i] == sats[..i];
      var start := ToEci(m.sqrt, sats[i].orbit);
      if start.None? {
        tracks := Put(tracks, Failed(sats[i]));
      } else {
        var states := Propagate(m.sqrt, start.value, dt, steps);
        tracks := Put(tracks, if states.None? then Failed(sats[i]) else Ready(sats[i], states.value));
      }
    }
    assert sats[..|sats|] == sats;
  }

  lemma RowAppend<T, R>(f: (T, T) -> R, a: T, later: seq<T>, b: T)
    ensures Row(f, a, later + [b]) == Row(f, a, later) + [f(a, b)]
  {
    assert (later + [b])[..|later + [b]| - 1] == later;
  }

  method AllPairs<T, R>(f: (T, T) -> R, s: seq<T>) returns (results: seq<R>)
    ensures results == Pairs(f, s, |s|)
  {
    results := [];
    for i := 0 to |s|
      invariant results == Pairs(f, s, i)
    {
      ghost var before := results;
      for j := i + 1 to |s|
        invariant results == before + Row(f, s[i], s[i + 1..j])
      {
        RowAppend(f, s[i], s[i + 1..j], s[j]);
        assert s[i + 1..j + 1] == s[i + 1..j] + [s[j]];
        assert before + Row(f, s[i], s[i + 1..j + 1]) == results + [f(s[i], s[j])];
        results := results + [f(s[i], s[j])];
      }
      assert s[i + 1..|s|] == s[i + 1..];
    }
  }

  // ---------- Symmetry of the batch analysis ----------

  function MoveSat(g: Symmetry, s: Satellite): Satellite {
    s.(orbit := MoveOrbit(g, s.orbit))
  }

  function MoveSats(g: Symmetry, sats: seq<Satellite>): seq<Satellite> {
    seq(|sats|, i requires 0 <= i < |sats| => MoveSat(g, sats[i]))
  }

  function MoveT(g: Symmetry, t: Track): Track {
    match t
    case Failed(s) => Failed(MoveSat(g, s))
    case Ready(s, states) => Ready(MoveSat(g, s), MoveAll(g, states))
  }

  function Mover(g: Symmetry): Track -> Track {
    (t: Track) => MoveT(g, t)
  }

  function Map<T>(f: T -> T, s: seq<T>): seq<T> {
    seq(|s|, i requires 0 <= i < |s| => f(s[i]))
  }

  lemma MapCons<T>(f: T -> T, x: T, s: seq<T>)
    ensures Map(f, [x] + s) == [f(x)] + Map(f, s)
  {}

  lemma MapTail<T>(f: T -> T, s: seq<T>)
    requires s != []
    ensures Map(f, s)[0] == f(s[0]) && Map(f, s)[1..] == Map(f, s[1..])
  {}

  function MoveTs(g: Symmetry, ts: seq<Track>): seq<Track> {
    Map(Mover(g), ts)
  }

  lemma TrackOfCommutes(m: Maths, g: Symmetry, sat: Satellite, dt: real, steps: nat)
    requires g.Proper()
    ensures TrackOf(m, MoveSat(g, sat), dt, steps) == MoveT(g, TrackOf(m, sat, dt, steps))
  {
    ToEciCommutes(m.sqrt, g, sat.orbit);
    var start := ToEci(m.sqrt, sat.orbit);
    if start.Some? {
      TrackCommutes(m.sqrt, g, start.value, dt, steps);
    }
  }

  lemma {:induction false} PutCommutes(g: Symmetry, ts: seq<Track>, t: Track)
    ensures Put(MoveTs(g, ts), MoveT(g, t)) == MoveTs(g, Put(ts, t))
  {
    if ts != [] {
      PutCommutes(g, ts[1..], t);
      MapTail(Mover(g), ts);
      MapCons(Mover(g), t, ts[1..]);
      MapCons(Mover(g), ts[0], Put(ts[1..], t));
    }
  }

  lemma {:induction false} TracksCommute(m: Maths, g: Symmetry, sats: seq<Satellite>, dt: real, steps: nat)
    requires g.Proper()
    ensures Tracks(m, MoveSats(g, sats), dt, steps) == MoveTs(g, Tracks(m, sats, dt, steps))
  {
    if sats != [] {
      var init, last := sats[..|sats| - 1], sats[|sats| - 1];
      TracksCommute(m, g, init, dt, steps);
      TrackOfCommutes(m, g, last, dt, steps);
      PutCommutes(g, Tracks(m, init, dt, steps), TrackOf(m, last, dt, steps));
      assert MoveSats(g, sats)[..|sats| - 1] == MoveSats(g, init);
    }
  }

  lemma {:induction false} ValidCommutes(g: Symmetry, ts: seq<Track>)
    ensures Valid(MoveTs(g, ts)) == MoveTs(g, Valid(ts))
  {
    if ts != [] {
      ValidCommutes(g, ts[1..]);
      MapTail(Mover(g), ts);
      MapCons(Mover(g), ts[0], Valid(ts[1..]));
    }
  }

  lemma SubCommutes(g: Symmetry, a: V3, b: V3)
    ensures Sub(g.Move(a), g.Move(b)) == g.Move(Sub(a, b))
  {}

  lemma SeparationUnchanged(g: Symmetry, a: V3, b: V3)
    requires g.Proper()
    ensures Norm2(Sub(g.Move(a), g.Move(b))) == Norm2(Sub(a, b))
  {
    SubCommutes(g, a, b);
    MoveKeepsNorm(g, Sub(a, b));
  }

  /** Moving both tracks changes nothing in a pair's result. */
  lemma PairUnchanged(m: Maths, g: Symmetry, a: Track, b: Track, dt: real)
    requires g.Proper()
    ensures Analyze(m, MoveT(g, a), MoveT(g, b), dt) == Analyze(m, a, b, dt)
  {
    if a.Ready? && b.Ready? && |a.states| == |b.states| > 0 {
      DistancesUnchanged(m.sqrt, g, a.states, b.states);
      var k := FindConjunction(Distances(m.sqrt, a.states, b.states), dt).idx;
      SeparationUnchanged(g, a.states[k].v, b.states[k].v);
    }
  }

  lemma DistancesUnchanged(sqrt: Sqrt, g: Symmetry, a: seq<State>, b: seq<State>)
    requires g.Proper() && |a| == |b|
    ensures Distances(sqrt, MoveAll(g, a), MoveAll(g, b)) == Distances(sqrt, a, b)
  {
    forall i | 0 <= i < |a|
      ensures Dist(sqrt, g.Move(a[i].p), g.Move(b[i].p)) == Dist(sqrt, a[i].p, b[i].p)
    {
      SeparationUnchanged(g, a[i].p, b[i].p);
    }
  }

  lemma {:induction false} RowUnchanged<T(!new), R>(f: (T, T) -> R, g: T -> T, a: T, later: seq<T>)
    requires forall x, y {:trigger f(g(x), g(y))} :: f(g(x), g(y)) == f(x, y)
    ensures Row(f, g(a), Map(g, later)) == Row(f, a, later)
  {
    if later != [] {
      RowUnchanged(f, g, a, later[..|later| - 1]);
      assert Map(g, later)[..|later| - 1] == Map(g, later[..|later| - 1]);
      assert f(g(a), g(later[|later| - 1])) == f(a, later[|later| - 1]);
    }
  }

  lemma {:induction false} PairsUnchanged<T(!new), R>(f: (T, T) -> R, g: T -> T, s: seq<T>, i: nat)
    requires forall x, y {:trigger f(g(x), g(y))} :: f(g(x), g(y)) == f(x, y)
    requires i <= |s|
    ensures Pairs(f, Map(g, s), i) == Pairs(f, s, i)
  {
    if i > 0 {
      PairsUnchanged(f, g, s, i - 1);
      RowUnchanged(f, g, s[i - 1], s[i..]);
      assert Map(g, s)[i..] == Map(g, s[i..]);
    }
  }

  /** Turning every node by the same angle, or mirroring every orbit in the equator, leaves the whole
      batch result - times, distances, speeds, risks, maneuvers and order - unchanged. */
  lemma BatchUnchanged(m: Maths, g: Symmetry, sats: seq<Satellite>, dt: real, steps: nat)
    requires g.Proper()
    ensures Analyzed(m, MoveSats(g, sats), dt, steps) == Analyzed(m, sats, dt, steps)
  {
    TracksCommute(m, g, sats, dt, steps);
    ValidCommutes(g, Tracks(m, sats, dt, steps));
    var valid := Valid(Tracks(m, sats, dt, steps));
    forall a, b
      ensures Analyzer(m, dt)(Mover(g)(a), Mover(g)(b)) == Analyzer(m, dt)(a, b)
    {
      PairUnchanged(m, g, a, b, dt);
    }
    PairsUnchanged(Analyzer(m, dt), Mover(g), valid, |valid|);
  }

  // ---------- Screening ----------

  datatype Hit = Hit(name: string, norad: string, miss: real, tcaHours: real, pc: real, risk: Risk)

  /** The sample and the distance of a catalogue object's coarse closest approach, when both it and its track exist. */
  function Coarse(m: Maths, primary: seq<State>, sat: Satellite, dt: real): Option<(nat, real)>
    requires primary != []
  {
    var t := TrackOf(m, sat, dt, |primary| - 1);
    if t.Failed? then None
    else
      var d := Distances(m.sqrt, primary, t.states);
      var k := FirstMin(d);
      Some((k, d[k]))
  }

  /** Closer than the threshold, with a probability that can be computed. */
  predicate Close(m: Maths, primary: seq<State>, sat: Satellite, dt: real, threshold: real)
    requires primary != []
  {
    var c := Coarse(m, primary, sat, dt);
    c.Some? && c.value.1 < threshold && m.pc(c.value.1, 100.0).Some?
  }

  function Hours(k: nat, dt: real): real { TimeAt(k, 0.0, dt) / 3600.0 }

  lemma HoursOfSample(k: nat, dt: real)
    ensures 3600.0 * Hours(k, dt) == Times(k as real, dt)
  {
    ZeroSteps(dt);
  }

  function HitFor(m: Maths, id: Ident, k: nat, miss: real, dt: real, pc: real): Hit {
    Hit(id.name, id.norad, m.round.r1(miss), m.round.r2(Hours(k, dt)), pc, RiskLevel(pc, miss))
  }

  function Report(m: Maths, primary: seq<State>, sat: Satellite, dt: real): Hit
    requires primary != [] && Coarse(m, primary, sat, dt).Some?
    requires m.pc(Coarse(m, primary, sat, dt).value.1, 100.0).Some?
  {
    var (k, miss) := Coarse(m, primary, sat, dt).value;
    HitFor(m, sat.id, k, miss, dt, m.pc(miss, 100.0).value)
  }

  /** One hit for each catalogue entry closer than the threshold, in catalogue order. */
  function Hits(m: Maths, primary: seq<State>, catalog: seq<Satellite>, dt: real, threshold: real): seq<Hit>
    requires primary != []
  {
    if catalog == [] then []
    else
      var last := catalog[|catalog| - 1];
      Hits(m, primary, catalog[..|catalog| - 1], dt, threshold)
      + if Close(m, primary, last, dt, threshold) then [Report(m, primary, last, dt)] else []
  }

  function NearestFirst(): (Hit, Hit) -> bool {
    (a: Hit, b: Hit) => a.miss <= b.miss
  }

  method ScreenConjunctions(m: Maths, start: State, catalog: seq<Satellite>, dt: real, steps: nat, thresholdKm: real)
    returns (hits: seq<Hit>)
    ensures var primary := Propagation.Track(m.sqrt, start, dt, steps);
      hits == if primary.None? then []
              else SortBy(Hits(m, primary.value, catalog, dt, thresholdKm * 1000.0), NearestFirst())
  {
    if catalog == [] {
      return [];
    }
    var track := Propagate(m.sqrt, start, dt, steps);
    if track.None? {
      return [];
    }
    var primary, threshold := track.value, thresholdKm * 1000.0;
    hits := [];
    for i := 0 to |catalog|
      invariant hits == Hits(m, primary, catalog[..i], dt, threshold)
    {
      assert catalog[..i + 1][..i] == catalog[..i];
      var hit := ScreenOne(m, primary, catalog[i], dt, threshold);
      if hit.Some? {
        hits := hits + [hit.value];
      }
    }
    assert catalog[..|catalog|] == catalog;
    hits := SortBy(hits, NearestFirst());
  }

  method ScreenOne(m: Maths, primary: seq<State>, sat: Satellite, dt: real, threshold: real) returns (hit: Option<Hit>)
    requires primary != []
    ensures hit == if Close(m, primary, sat, dt, threshold) then Some(Report(m, primary, sat, dt)) else None
  {
    var start := ToEci(m.sqrt, sat.orbit);
    if start.None? {
      return None;
    }
    var states := Propagate(m.sqrt, start.value, dt, |primary| - 1);
    if states.None? {
      return None;
    }
    var k, least := Nearest(m.sqrt, primary, states.value);
    if least > threshold {
      return None;
    }
    var pc := m.pc(least, 100.0);
    if pc.None? {
      return None;
    }
    if least < threshold {
      return Some(HitFor(m, sat.id, k, least, dt, pc.value));
    }
    return None;
  }

  lemma FirstMinAppend(d: seq<real>, i: nat)
    requires 0 < i < |d|
    ensures FirstMin(d[..i + 1]) == if d[i] < d[FirstMin(d[..i])] then i else FirstMin(d[..i])
  {
    assert d[..i + 1][..i] == d[..i];
  }

  /** The scan for the smallest distance, keeping the first of equals. */
  method Nearest(sqrt: Sqrt, t1: seq<State>, t2: seq<State>) returns (k: nat, least: real)
    requires |t1| == |t2| > 0
    ensures k == FirstMin(Distances(sqrt, t1, t2)) && least == Distances(sqrt, t1, t2)[k]
  {
    ghost var d := Distances(sqrt, t1, t2);
    k, least := 0, Dist(sqrt, t1[0].p, t2[0].p);
    for i := 1 to |t1|
      invariant k == FirstMin(d[..i]) && least == d[k]
    {
      FirstMinAppend(d, i);
      var dist := Dist(sqrt, t1[i].p, t2[i].p);
      if dist < least {
        k, least := i, dist;
      }
    }
    assert d[..|t1|] == d;
  }

  /** The catalogue entries below the threshold, and only those, are reported, each as often as it
      occurs, nearest first. */
  lemma {:induction false} ScreeningIsExact(m: Maths, primary: seq<State>, catalog: seq<Satellite>, dt: real,
                                            threshold: real)
    requires primary != []
    ensures var hits := Hits(m, primary, catalog, dt, threshold);
      && |hits| == CountIf(catalog, (s: Satellite) => Close(m, primary, s, dt, threshold))
      && (forall h :: h in hits <==> exists s :: s in catalog && Reports(m, primary, s, dt, threshold, h))
  {
    if catalog != [] {
      var init, last := catalog[..|catalog| - 1], catalog[|catalog| - 1];
      ScreeningIsExact(m, primary, init, dt, threshold);
      assert catalog == init + [last];
      forall h
        ensures h in Hits(m, primary, catalog, dt, threshold)
          <==> h in Hits(m, primary, init, dt, threshold) || Reports(m, primary, last, dt, threshold, h)
      {}
    }
  }

  ghost predicate Reports(m: Maths, primary: seq<State>, s: Satellite, dt: real, threshold: real, h: Hit)
    requires primary != []
  {
    Close(m, primary, s, dt, threshold) && h == Report(m, primary, s, dt)
  }

  lemma ScreeningIsSorted(hits: seq<Hit>)
    ensures multiset(SortBy(hits, NearestFirst())) == multiset(hits)
    ensures var sorted := SortBy(hits, NearestFirst());
      forall i, j :: 0 <= i < j < |sorted| ==> sorted[i].miss <= sorted[j].miss
  {
    assert TotalPreorder(NearestFirst());
    SortFacts(hits, NearestFirst());
    var sorted := SortBy(hits, NearestFirst());
    forall i, j | 0 <= i < j < |sorted|
      ensures sorted[i].miss <= sorted[j].miss
    {
      assert NearestFirst()(sorted[i], sorted[j]);
    }
  }

  /** Which catalogue entries are reported, and what a report says: the entry has a track whose smallest distance
      over the samples is below the threshold; the report gives that distance, the time of the first sample that
      has it in hours, and the probability there. */
  lemma ReportMeans(m: Maths, primary: seq<State>, sat: Satellite, dt: real, threshold: real)
    returns (k: nat, near: real, hours: real)
    requires primary != []
    ensures var t := TrackOf(m, sat, dt, |primary| - 1);
      if t.Failed? then !Close(m, primary, sat, dt, threshold)
      else
        && |t.states| == |primary| && NearestAt(m.sqrt, primary, t.states, k, near)
        && (Close(m, primary, sat, dt, threshold) <==> near < threshold && m.pc(near, 100.0).Some?)
        && 3600.0 * hours == Times(k as real, dt)
        && (Close(m, primary, sat, dt, threshold) ==>
              Describes(m, Report(m, primary, sat, dt), sat.id, near, hours))
  {
    k, near, hours := 0, 0.0, 0.0;
    var t := TrackOf(m, sat, dt, |primary| - 1);
    if t.Ready? {
      k := FirstMin(Distances(m.sqrt, primary, t.states));
      near := Distances(m.sqrt, primary, t.states)[k];
      hours := Hours(k, dt);
      HoursOfSample(k, dt);
      NearestIsFirstMin(m.sqrt, primary, t.states);
    }
  }

  /** Sample k is the first at which two tracks are nearest, at the distance `near`. */
  ghost predicate NearestAt(sqrt: Sqrt, t1: seq<State>, t2: seq<State>, k: nat, near: real)
    requires |t1| == |t2|
  {
    && k < |t1| && near == Dist(sqrt, t1[k].p, t2[k].p)
    && (forall i :: 0 <= i < |t1| ==> near <= Dist(sqrt, t1[i].p, t2[i].p))
    && (forall i :: 0 <= i < k ==> near < Dist(sqrt, t1[i].p, t2[i].p))
  }

  lemma NearestIsFirstMin(sqrt: Sqrt, t1: seq<State>, t2: seq<State>)
    requires |t1| == |t2| > 0
    ensures var k := FirstMin(Distances(sqrt, t1, t2)); NearestAt(sqrt, t1, t2, k, Distances(sqrt, t1, t2)[k])
  {
    var d := Distances(sqrt, t1, t2);
    assert forall i :: 0 <= i < |t1| ==> d[i] == Dist(sqrt, t1[i].p, t2[i].p);
  }

  /** The hit h reports the object with the probability at a fixed uncertainty of 100 m. */
  ghost predicate Describes(m: Maths, h: Hit, id: Ident, near: real, hours: real) {
    && h.name == id.name && h.norad == id.norad && h.miss == m.round.r1(near) && h.tcaHours == m.round.r2(hours)
    && m.pc(near, 100.0) == Some(h.pc) && h.risk == RiskLevel(h.pc, near)
  }
}
