/** Ranking of maneuver candidates: the two cheapest are screened against the catalogue under a time
    limit, the rest are scored on fuel alone, and the best class wins. */
module ManeuverRanking {
  import opened Prelude
  import opened Sorting
  import opened ManeuverSearch

  const TIME_LIMIT := 25.0

  /** A secondary conjunction found by screening; only RED and YELLOW ones are significant. */
  datatype Secondary = Secondary(pc: real, risk: Risk) {
    predicate Significant() { risk == Red || risk == Yellow }
  }

  datatype Scored = Scored(cand: Candidate, fuelScore: real, cascade: real, combined: real,
                           risks: seq<Secondary>, riskCount: nat, safe: Option<bool>, screened: bool)

  // ---------- Scores ----------

  function MinDv(cs: seq<Candidate>): real
    requires cs != []
    ensures forall c :: c in cs ==> MinDv(cs) <= c.deltaV
  {
    if |cs| == 1 then cs[0].deltaV
    else
      var m := MinDv(cs[1..]);
      if cs[0].deltaV <= m then cs[0].deltaV else m
  }

  function MaxDv(cs: seq<Candidate>): real
    requires cs != []
    ensures forall c :: c in cs ==> c.deltaV <= MaxDv(cs)
  {
    if |cs| == 1 then cs[0].deltaV
    else
      var m := MaxDv(cs[1..]);
      if m <= cs[0].deltaV then cs[0].deltaV else m
  }

  /** The spread of the costs, at least 0.0001; a maximum of zero counts as one. */
  function Spread(cs: seq<Candidate>): real
    requires cs != []
    ensures Spread(cs) > 0.0
  {
    var top := if MaxDv(cs) == 0.0 then 1.0 else MaxDv(cs);
    var spread := top - MinDv(cs);
    if spread < 0.0001 then 0.0001 else spread
  }

  function FuelScore(cs: seq<Candidate>, c: Candidate): real
    requires cs != []
  {
    (c.deltaV - MinDv(cs)) / Spread(cs)
  }

  function Significant(found: seq<Secondary>): seq<Secondary> {
    if found == [] then []
    else Significant(found[..|found| - 1]) + if found[|found| - 1].Significant() then [found[|found| - 1]] else []
  }

  function MaxPc(found: seq<Secondary>): real {
    if found == [] then 0.0
    else if |found| == 1 then found[0].pc
    else
      var m := MaxPc(found[1..]);
      if m <= found[0].pc then found[0].pc else m
  }

  /** Screening that raised (None) counts as no risk found. */
  function Evaluate(outcome: Option<seq<Secondary>>): (seq<Secondary>, real) {
    if outcome.None? then ([], 0.0)
    else
      var s := Significant(outcome.value);
      var m := MaxPc(s);
      (s, if m > 0.0001 then 1.0 else if m > 0.00001 then 0.7 else if m > 0.000001 then 0.3 else 0.0)
  }

  function FuelOnly(cs: seq<Candidate>, c: Candidate, round3: real -> real): Scored
    requires cs != []
  {
    var f := FuelScore(cs, c);
    Scored(c, round3(f), 0.0, round3(f * 0.25), [], 0, Some(true), false)
  }

  function WithScreening(cs: seq<Candidate>, c: Candidate, outcome: Option<seq<Secondary>>,
                         round3: real -> real): Scored
    requires cs != []
  {
    var (found, cascade) := Evaluate(outcome);
    var f := FuelScore(cs, c);
    Scored(c, round3(f), round3(cascade), round3((1.0 * f + 3.0 * cascade) / (1.0 + 3.0)),
           if |found| > 5 then found[..5] else found, |found|, Some(cascade == 0.0), true)
  }

  function Unscreened(cs: seq<Candidate>, c: Candidate, round3: real -> real): Scored
    requires cs != []
  {
    var f := FuelScore(cs, c);
    Scored(c, round3(f), -1.0, round3(f * 0.25), [], 0, None, false)
  }

  /** Rounding to three decimals, as far as the scores need it. */
  ghost predicate RoundsScores(round3: real -> real) {
    Monotone(round3) && round3(0.0) == 0.0 && round3(1.0) == 1.0
  }

  // ---------- What the scores mean ----------

  lemma {:induction false} MinDvIsAttained(cs: seq<Candidate>)
    requires cs != []
    ensures exists c :: c in cs && c.deltaV == MinDv(cs)
  {
    if |cs| > 1 {
      MinDvIsAttained(cs[1..]);
    }
    assert cs[0] in cs;
  }

  lemma {:induction false} MaxDvIsAttained(cs: seq<Candidate>)
    requires cs != []
    ensures exists c :: c in cs && c.deltaV == MaxDv(cs)
  {
    if |cs| > 1 {
      MaxDvIsAttained(cs[1..]);
    }
    assert cs[0] in cs;
  }

  /** The fuel score never falls with the delta-v and is zero for the cheapest candidate.  Unless all cost the
      same to within 0.0001, it is the candidate's place between the cheapest (0) and the dearest (1). */
  lemma FuelScoreIsPlace(cs: seq<Candidate>, c: Candidate, d: Candidate)
    requires cs != []
    ensures c.deltaV <= d.deltaV ==> FuelScore(cs, c) <= FuelScore(cs, d)
    ensures c.deltaV == MinDv(cs) ==> FuelScore(cs, c) == 0.0
    ensures MaxDv(cs) != 0.0 && MaxDv(cs) - MinDv(cs) >= 0.0001 ==>
      c.deltaV == MinDv(cs) + Times(FuelScore(cs, c), MaxDv(cs) - MinDv(cs))
    ensures MaxDv(cs) == 0.0 && MinDv(cs) <= 0.0 ==>
      c.deltaV == MinDv(cs) + Times(FuelScore(cs, c), 1.0 - MinDv(cs))
    ensures MaxDv(cs) != 0.0 && MaxDv(cs) - MinDv(cs) < 0.0001 ==>
      FuelScore(cs, c) == 10000.0 * (c.deltaV - MinDv(cs))
  {
    var d0 := Spread(cs);
    QuotientTimes(c.deltaV - MinDv(cs), d0);
    QuotientTimes(d.deltaV - MinDv(cs), d0);
    TimesOrder(FuelScore(cs, c), FuelScore(cs, d), d0);
    if c.deltaV == MinDv(cs) {
      ZeroTimes(FuelScore(cs, c), d0);
    }
  }

  lemma QuotientTimes(x: real, d: real)
    requires d != 0.0
    ensures Times(x / d, d) == x
  {}

  lemma TimesOrder(u: real, w: real, d: real)
    requires d > 0.0
    ensures Times(u, d) <= Times(w, d) ==> u <= w
  {
    if u > w {
      ProductPositive(u - w, d, (u - w) * d);
    }
  }

  lemma ZeroTimes(u: real, d: real)
    requires d != 0.0 && Times(u, d) == 0.0
    ensures u == 0.0
  {}

  /** The significant secondaries are those coloured RED or YELLOW, in the order found. */
  lemma {:induction false} SignificantExactly(found: seq<Secondary>)
    ensures forall s :: s in Significant(found) <==> s in found && (s.risk == Red || s.risk == Yellow)
    ensures |Significant(found)| == CountIf(found, (s: Secondary) => s.Significant())
  {
    if found != [] {
      SignificantExactly(found[..|found| - 1]);
      assert found == found[..|found| - 1] + [found[|found| - 1]];
    }
  }

  lemma {:induction false} MaxPcIsMax(found: seq<Secondary>)
    requires found != []
    ensures forall s :: s in found ==> s.pc <= MaxPc(found)
    ensures exists s :: s in found && s.pc == MaxPc(found)
  {
    if |found| > 1 {
      MaxPcIsMax(found[1..]);
    }
    assert found[0] in found;
  }

  /** Some significant secondary has a probability above p. */
  ghost predicate RiskAbove(found: seq<Secondary>, p: real) {
    exists s :: s in found && s.risk != Green && s.pc > p
  }

  /** The cascade score grades the most probable significant secondary: 0 exactly when none lies above 1e-6, at
      least 0.3, 0.7 and 1 exactly when one lies above 1e-6, 1e-5 and 1e-4. */
  lemma CascadeGradesRisk(found: seq<Secondary>)
    ensures var score := Evaluate(Some(found)).1;
      && score in {0.0, 0.3, 0.7, 1.0}
      && (score == 0.0 <==> !RiskAbove(found, 0.000001))
      && (score >= 0.7 <==> RiskAbove(found, 0.00001))
      && (score == 1.0 <==> RiskAbove(found, 0.0001))
  {
    RiskAboveExactly(found, 0.000001);
    RiskAboveExactly(found, 0.00001);
    RiskAboveExactly(found, 0.0001);
  }

  lemma RiskAboveExactly(found: seq<Secondary>, p: real)
    requires p > 0.0
    ensures RiskAbove(found, p) <==> MaxPc(Significant(found)) > p
  {
    var s := Significant(found);
    SignificantExactly(found);
    if s != [] {
      MaxPcIsMax(s);
    }
  }

  /** The score never falls when probabilities grow, and more secondaries never lower it. */
  lemma CascadeNeverFalls(found: seq<Secondary>, other: seq<Secondary>)
    requires forall s :: s in found && s.risk != Green ==>
      exists t :: t in other && t.risk != Green && t.pc >= s.pc
    ensures Evaluate(Some(found)).1 <= Evaluate(Some(other)).1
  {
    CascadeGradesRisk(found);
    CascadeGradesRisk(other);
    RiskGrows(found, other, 0.000001);
    RiskGrows(found, other, 0.00001);
    RiskGrows(found, other, 0.0001);
  }

  lemma RiskGrows(found: seq<Secondary>, other: seq<Secondary>, p: real)
    requires forall s :: s in found && s.risk != Green ==>
      exists t :: t in other && t.risk != Green && t.pc >= s.pc
    ensures RiskAbove(found, p) ==> RiskAbove(other, p)
  {
    if RiskAbove(found, p) {
      var s :| s in found && s.risk != Green && s.pc > p;
      var t :| t in other && t.risk != Green && t.pc >= s.pc;
    }
  }

  /** Nothing was found that counts as a risk; screening that raised finds nothing. */
  ghost predicate NoRiskFound(outcome: Option<seq<Secondary>>) {
    outcome.Some? ==> !RiskAbove(outcome.value, 0.000001)
  }

  lemma SafeExactly(cs: seq<Candidate>, c: Candidate, outcome: Option<seq<Secondary>>, round3: real -> real)
    requires cs != []
    ensures WithScreening(cs, c, outcome, round3).safe == Some(true) <==> NoRiskFound(outcome)
  {
    if outcome.Some? {
      CascadeGradesRisk(outcome.value);
    }
  }

  /** What a screened entry shows: the number of significant secondaries, and the first five of them. */
  lemma ShownRisks(cs: seq<Candidate>, c: Candidate, found: seq<Secondary>, round3: real -> real)
    requires cs != []
    ensures var e := WithScreening(cs, c, Some(found), round3);
      && e.riskCount == CountIf(found, (s: Secondary) => s.Significant())
      && |e.risks| == (if e.riskCount <= 5 then e.riskCount else 5)
      && e.risks <= Significant(found)
      && (e.riskCount == 0 ==> e.safe == Some(true))
  {
    SignificantExactly(found);
  }

  function Exact(): real -> real { (x: real) => x }

  /** Before rounding, safety weighs three times as much as fuel: the riskier of two screened candidates comes
      first exactly when it saves more than three times the difference in risk.  A score of 0.7 never beats
      0.3; a score of 1 beats 0.7 when it saves at least 0.9 of the fuel spread. */
  lemma SafetyWeighsThreefold(cs: seq<Candidate>, c: Candidate, oc: Option<seq<Secondary>>,
                              d: Candidate, od: Option<seq<Secondary>>)
    requires c in cs && d in cs
    ensures var a, b := WithScreening(cs, c, oc, Exact()), WithScreening(cs, d, od, Exact());
      && (a.combined <= b.combined <==> 3.0 * (a.cascade - b.cascade) <= b.fuelScore - a.fuelScore)
      && (a.cascade == 0.7 && b.cascade == 0.3 ==> b.combined < a.combined)
      && (a.cascade == 1.0 && b.cascade == 0.7 ==> (a.combined <= b.combined <==> b.fuelScore - a.fuelScore >= 0.9))
  {
    FuelScoreInUnit(cs, c);
    FuelScoreInUnit(cs, d);
  }

  /** A candidate that was not screened gets the combined score of one screened without finding anything, and shows
      no risks.  Without a catalogue it even shows the same as such a one, except that it was not screened; with
      one its cascade score is -1 and its safety unknown. */
  lemma UnscreenedScoresAsSafe(cs: seq<Candidate>, c: Candidate, round3: real -> real)
    requires cs != [] && round3(0.0) == 0.0
    ensures var s := WithScreening(cs, c, None, round3);
      && s.screened && s.safe == Some(true) && s.cascade == 0.0 && s.risks == [] && s.riskCount == 0 && s.cand == c
      && FuelOnly(cs, c, round3) == s.(screened := false)
      && Unscreened(cs, c, round3) == s.(screened := false, safe := None, cascade := -1.0)
  {
    assert (1.0 * FuelScore(cs, c) + 3.0 * 0.0) / (1.0 + 3.0) == FuelScore(cs, c) * 0.25;
  }

  lemma FuelScoreInUnit(cs: seq<Candidate>, c: Candidate)
    requires c in cs
    ensures 0.0 <= FuelScore(cs, c) <= 1.0
  {
    QuotientTimes(c.deltaV - MinDv(cs), Spread(cs));
    ShareInUnit(FuelScore(cs, c), Spread(cs));
  }

  lemma ShareInUnit(u: real, d: real)
    requires d > 0.0 && 0.0 <= Times(u, d) <= d
    ensures 0.0 <= u <= 1.0
  {
    TimesOrder(0.0, u, d);
    TimesOrder(u, 1.0, d);
  }

  ghost predicate InUnit(x: real) {
    0.0 <= x <= 1.0
  }

  lemma RoundKeepsUnit(round3: real -> real, x: real)
    requires RoundsScores(round3) && InUnit(x)
    ensures InUnit(round3(x))
  {
    assert round3(0.0) <= round3(x) <= round3(1.0);
  }

  /** Every score lies in [0, 1], whatever screening found. */
  lemma ScoresInUnit(cs: seq<Candidate>, c: Candidate, outcome: Option<seq<Secondary>>, round3: real -> real)
    requires c in cs && RoundsScores(round3)
    ensures InUnit(FuelOnly(cs, c, round3).fuelScore) && InUnit(FuelOnly(cs, c, round3).combined)
    ensures InUnit(WithScreening(cs, c, outcome, round3).fuelScore)
    ensures InUnit(WithScreening(cs, c, outcome, round3).combined)
    ensures InUnit(Unscreened(cs, c, round3).fuelScore) && InUnit(Unscreened(cs, c, round3).combined)
    ensures InUnit(WithScreening(cs, c, outcome, round3).cascade)
  {
    FuelScoreInUnit(cs, c);
    var f, cascade := FuelScore(cs, c), Evaluate(outcome).1;
    RoundKeepsUnit(round3, f);
    RoundKeepsUnit(round3, f * 0.25);
    RoundKeepsUnit(round3, cascade);
    RoundKeepsUnit(round3, (1.0 * f + 3.0 * cascade) / (1.0 + 3.0));
  }

  // ---------- The scored list ----------

  function Cheaper(): (Candidate, Candidate) -> bool {
    (a: Candidate, b: Candidate) => a.deltaV <= b.deltaV
  }

  /** The two cheapest candidates, earlier ones first among equals. */
  function Top(cs: seq<Candidate>): seq<Candidate> {
    var s := SortBy(cs, Cheaper());
    if |s| <= 2 then s else s[..2]
  }

  function Keys(cs: seq<Candidate>): set<(Direction, int)> {
    set c | c in cs :: Key(c)
  }

  lemma KeyListed(cs: seq<Candidate>, j: nat)
    ensures j < |cs| ==> Key(cs[j]) in Keys(cs)
  {}

  function Others(cs: seq<Candidate>, keys: set<(Direction, int)>): seq<Candidate> {
    if cs == [] then []
    else Others(cs[..|cs| - 1], keys) + if Key(cs[|cs| - 1]) !in keys then [cs[|cs| - 1]] else []
  }

  type Screening = Candidate -> Option<seq<Secondary>>

  /** How many of the top candidates are screened: the clock is looked at before each. */
  function ScreenedCount(n: nat, elapsed: nat -> real, i: nat): (k: nat)
    requires i <= n
    ensures i <= k <= n && (k < n ==> elapsed(k) > 25.0)
    ensures forall j :: i <= j < k ==> elapsed(j) <= 25.0
    decreases n - i
  {
    if i == n || elapsed(i) > TIME_LIMIT then i else ScreenedCount(n, elapsed, i + 1)
  }

  function Screened(cs: seq<Candidate>, top: seq<Candidate>, screen: Screening, k: nat,
                    round3: real -> real): seq<Scored>
    requires cs != [] && k <= |top|
  {
    seq(k, i requires 0 <= i < k => WithScreening(cs, top[i], screen(top[i]), round3))
  }

  function FuelScored(cs: seq<Candidate>, rest: seq<Candidate>, round3: real -> real): seq<Scored>
    requires cs != []
  {
    seq(|rest|, i requires 0 <= i < |rest| => Unscreened(cs, rest[i], round3))
  }

  function ScoredList(cs: seq<Candidate>, noCatalog: bool, screen: Screening, k: nat, round3: real -> real): seq<Scored>
    requires cs != [] && k <= |Top(cs)|
  {
    if noCatalog then seq(|cs|, i requires 0 <= i < |cs| => FuelOnly(cs, cs[i], round3))
    else Screened(cs, Top(cs), screen, k, round3) + FuelScored(cs, Others(cs, Keys(Top(cs))), round3)
  }

  function Class(s: Scored): nat {
    if s.screened && s.safe == Some(true) then 0 else if s.screened then 1 else 2
  }

  predicate RankLe(a: Scored, b: Scored) {
    Class(a) < Class(b) || (Class(a) == Class(b) && a.combined <= b.combined)
  }

  function Rank(): (Scored, Scored) -> bool {
    (a: Scored, b: Scored) => RankLe(a, b)
  }

  function IsScreened(): Scored -> bool {
    (s: Scored) => s.screened
  }

  function IsSafe(): Scored -> bool {
    (s: Scored) => s.safe == Some(true)
  }

  lemma Preorders()
    ensures TotalPreorder(Rank()) && TotalPreorder(Cheaper())
  {}

  lemma {:induction false} OthersCount(cs: seq<Candidate>, keys: set<(Direction, int)>)
    ensures |Others(cs, keys)| == CountIf(cs, Outside(keys))
    ensures forall c :: c in Others(cs, keys) <==> c in cs && Key(c) !in keys
  {
    if cs != [] {
      OthersCount(cs[..|cs| - 1], keys);
      assert cs == cs[..|cs| - 1] + [cs[|cs| - 1]];
    }
  }

  lemma {:induction false} CountEvery<T>(s: seq<T>, p: T -> bool)
    requires forall i :: 0 <= i < |s| ==> p(s[i])
    ensures CountIf(s, p) == |s|
  {
    if s != [] {
      CountEvery(s[..|s| - 1], p);
    }
  }

  lemma {:induction false} CountNone<T>(s: seq<T>, p: T -> bool)
    requires forall i :: 0 <= i < |s| ==> !p(s[i])
    ensures CountIf(s, p) == 0
  {
    if s != [] {
      CountNone(s[..|s| - 1], p);
    }
  }

  lemma {:induction false} InsertKeepsDistinct(s: seq<Candidate>, x: Candidate, le: (Candidate, Candidate) -> bool)
    requires DistinctKeys(s) && Key(x) !in Keys(s)
    ensures DistinctKeys(Insert(s, x, le)) && Keys(Insert(s, x, le)) == Keys(s) + {Key(x)}
  {
    if s == [] || le(s[|s| - 1], x) {
      KeysAppend(s, x);
      DistinctAppend(s, x);
    } else {
      var init, last := s[..|s| - 1], s[|s| - 1];
      assert s == init + [last];
      KeysAppend(init, last);
      InsertKeepsDistinct(init, x, le);
      KeysAppend(Insert(init, x, le), last);
      DistinctAppend(Insert(init, x, le), last);
    }
  }

  lemma KeysAppend(s: seq<Candidate>, x: Candidate)
    ensures Keys(s + [x]) == Keys(s) + {Key(x)}
    ensures DistinctKeys(s + [x]) ==> DistinctKeys(s) && Key(x) !in Keys(s)
  {
    if DistinctKeys(s + [x]) {
      assert forall i :: 0 <= i < |s| ==> (s + [x])[i] == s[i];
      assert (s + [x])[|s|] == x;
    }
  }

  lemma DistinctAppend(s: seq<Candidate>, x: Candidate)
    requires DistinctKeys(s) && Key(x) !in Keys(s)
    ensures DistinctKeys(s + [x])
  {
    assert forall i :: 0 <= i < |s| ==> Key(s[i]) in Keys(s);
  }

  lemma {:induction false} SortKeepsDistinct(cs: seq<Candidate>, le: (Candidate, Candidate) -> bool)
    requires DistinctKeys(cs)
    ensures DistinctKeys(SortBy(cs, le)) && Keys(SortBy(cs, le)) == Keys(cs)
  {
    if cs != [] {
      var init, last := cs[..|cs| - 1], cs[|cs| - 1];
      assert cs == init + [last];
      KeysAppend(init, last);
      SortKeepsDistinct(init, le);
      InsertKeepsDistinct(SortBy(init, le), last, le);
    }
  }

  /** The two screened candidates are the cheapest, cheapest first; every other candidate costs at least as much. */
  lemma TopIsCheapest(cs: seq<Candidate>)
    ensures var top := Top(cs);
      && |top| == (if |cs| <= 2 then |cs| else 2)
      && (forall c :: c in top ==> c in cs)
      && (|top| == 2 ==> top[0].deltaV <= top[1].deltaV)
      && (forall c, o :: c in top && o in Others(cs, Keys(top)) ==> c.deltaV <= o.deltaV)
      && (forall o :: o in cs ==> o in Others(cs, Keys(top)) || exists c :: c in top && Key(c) == Key(o))
  {
    var s, top := SortBy(cs, Cheaper()), Top(cs);
    Preorders();
    SortFacts(cs, Cheaper());
    OthersCount(cs, Keys(top));
    forall i: nat | i < |top|
      ensures top[i] == s[i] && top[i] in cs
    {
      SortMembers(cs, Cheaper(), s[i]);
    }
    forall i: nat, o | i < |top| && o in Others(cs, Keys(top))
      ensures top[i].deltaV <= o.deltaV
    {
      SortMembers(cs, Cheaper(), o);
      var j :| 0 <= j < |s| && s[j] == o;
      KeyListed(top, j);
      assert Cheaper()(s[i], s[j]);
    }
    assert |top| == 2 ==> Cheaper()(s[0], s[1]);
  }

  /** With distinct keys exactly the candidates that are not among the two cheapest stay unscreened,
      even when the time limit cut the screening short. */
  lemma UnscreenedAreAllButTheTop(cs: seq<Candidate>)
    requires DistinctKeys(cs)
    ensures |Others(cs, Keys(Top(cs)))| == |cs| - |Top(cs)|
  {
    var s := SortBy(cs, Cheaper());
    var n := if |s| <= 2 then |s| else 2;
    assert Top(cs) == s[..n];
    Preorders();
    SortFacts(cs, Cheaper());
    SortKeepsDistinct(cs, Cheaper());
    CountOutside(s, n);
    SortCount(cs, Cheaper(), Outside(Keys(Top(cs))));
    OthersCount(cs, Keys(Top(cs)));
  }

  function Outside(keys: set<(Direction, int)>): Candidate -> bool {
    (c: Candidate) => Key(c) !in keys
  }

  /** With distinct keys exactly the entries from position n on lie outside the keys of the first n. */
  lemma CountOutside(s: seq<Candidate>, n: nat)
    requires DistinctKeys(s) && n <= |s|
    ensures CountIf(s, Outside(Keys(s[..n]))) == |s| - n
  {
    var p := Outside(Keys(s[..n]));
    forall i | 0 <= i < |s|
      ensures p(s[i]) <==> i >= n
    {
      if i < n {
        assert s[..n][i] == s[i];
      } else {
        KeyOfLater(s, n, i);
      }
    }
    CountSplit(s, n, p);
  }

  lemma CountSplit<T>(s: seq<T>, n: nat, p: T -> bool)
    requires n <= |s| && forall i :: 0 <= i < |s| ==> (p(s[i]) <==> i >= n)
    ensures CountIf(s, p) == |s| - n
  {
    assert s == s[..n] + s[n..];
    CountIfConcat(s[..n], s[n..], p);
    CountNone(s[..n], p);
    CountEvery(s[n..], p);
  }

  lemma KeyOfLater(s: seq<Candidate>, n: nat, j: nat)
    requires DistinctKeys(s) && n <= j < |s|
    ensures Key(s[j]) !in Keys(s[..n])
  {}

  // ---------- The alternatives ----------

  function Alternatives(s: seq<Scored>, seen: set<(Direction, int)>, room: nat): seq<Scored> {
    if s == [] then []
    else if Key(s[0].cand) !in seen && room > 0 then [s[0]] + Alternatives(s[1..], seen + {Key(s[0].cand)}, room - 1)
    else Alternatives(s[1..], seen, room)
  }

  function SKeys(s: seq<Scored>): set<(Direction, int)> {
    set x | x in s :: Key(x.cand)
  }

  ghost predicate DistinctSKeys(s: seq<Scored>) {
    forall i, j :: 0 <= i < j < |s| ==> Key(s[i].cand) != Key(s[j].cand)
  }

  lemma SKeysCons(x: Scored, s: seq<Scored>)
    ensures SKeys([x] + s) == {Key(x.cand)} + SKeys(s)
  {}

  lemma DistinctCons(x: Scored, s: seq<Scored>)
    requires DistinctSKeys(s) && Key(x.cand) !in SKeys(s)
    ensures DistinctSKeys([x] + s)
  {
    assert forall i :: 0 <= i < |s| ==> Key(s[i].cand) in SKeys(s);
  }

  /** The alternatives are listed entries with distinct, unseen keys, no more than there is room for. */
  lemma {:induction false} AlternativesAreDistinct(s: seq<Scored>, seen: set<(Direction, int)>, room: nat)
    ensures var a := Alternatives(s, seen, room);
      |a| <= room && DistinctSKeys(a) && SKeys(a) !! seen && forall x :: x in a ==> x in s
  {
    if s != [] {
      var k := Key(s[0].cand);
      if k !in seen && room > 0 {
        var rest := Alternatives(s[1..], seen + {k}, room - 1);
        AlternativesAreDistinct(s[1..], seen + {k}, room - 1);
        SKeysCons(s[0], rest);
        DistinctCons(s[0], rest);
      } else {
        AlternativesAreDistinct(s[1..], seen, room);
      }
    }
  }

  /** When there is room left no unseen key is missing. */
  lemma {:induction false} AlternativesAreComplete(s: seq<Scored>, seen: set<(Direction, int)>, room: nat)
    ensures |Alternatives(s, seen, room)| < room ==> SKeys(s) <= seen + SKeys(Alternatives(s, seen, room))
  {
    if s != [] {
      var k := Key(s[0].cand);
      SKeysCons(s[0], s[1..]);
      assert s == [s[0]] + s[1..];
      if k !in seen && room > 0 {
        AlternativesAreComplete(s[1..], seen + {k}, room - 1);
        SKeysCons(s[0], Alternatives(s[1..], seen + {k}, room - 1));
      } else {
        AlternativesAreComplete(s[1..], seen, room);
      }
    }
  }

  lemma AlternativesFrom(s: seq<Scored>, i: nat, seen: set<(Direction, int)>, room: nat)
    requires i < |s|
    ensures Alternatives(s[i..], seen, room) ==
      if Key(s[i].cand) !in seen && room > 0 then
        [s[i]] + Alternatives(s[i + 1..], seen + {Key(s[i].cand)}, room - 1)
      else Alternatives(s[i + 1..], seen, room)
  {
    assert s[i..][1..] == s[i + 1..];
  }

  // ---------- The selection ----------

  /** What a recommendation may claim: one of the candidates, and shown as screened and safe only when its
      screening raised or found no significant secondary above 1e-6. */
  ghost predicate SoundChoice(cs: seq<Candidate>, noCatalog: bool, screen: Screening, best: Scored) {
    && best.cand in cs
    && (best.screened ==> !noCatalog && best.cand in Top(cs))
    && (best.screened ==> (best.safe == Some(true) <==> NoRiskFound(screen(best.cand))))
  }

  lemma ChoiceIsSound(cs: seq<Candidate>, noCatalog: bool, screen: Screening, k: nat, round3: real -> real)
    requires cs != [] && k <= |Top(cs)| && ScoredList(cs, noCatalog, screen, k, round3) != []
    ensures SoundChoice(cs, noCatalog, screen, SortBy(ScoredList(cs, noCatalog, screen, k, round3), Rank())[0])
  {
    var list := ScoredList(cs, noCatalog, screen, k, round3);
    BestInClass(list);
    var best := SortBy(list, Rank())[0];
    var i :| 0 <= i < |list| && list[i] == best;
    EntryIsSound(cs, noCatalog, screen, k, round3, i);
  }

  lemma EntryIsSound(cs: seq<Candidate>, noCatalog: bool, screen: Screening, k: nat, round3: real -> real, i: nat)
    requires cs != [] && k <= |Top(cs)| && i < |ScoredList(cs, noCatalog, screen, k, round3)|
    ensures SoundChoice(cs, noCatalog, screen, ScoredList(cs, noCatalog, screen, k, round3)[i])
  {
    if noCatalog {
      UnscreenedIsSound(cs, noCatalog, screen, cs[i], round3);
    } else if i < k {
      TopMember(cs, i);
      ScreenedIsSound(cs, screen, Top(cs)[i], round3);
    } else {
      var rest := Others(cs, Keys(Top(cs)));
      OthersMember(cs, Keys(Top(cs)), i - k);
      UnscreenedIsSound(cs, noCatalog, screen, rest[i - k], round3);
    }
  }

  lemma TopMember(cs: seq<Candidate>, i: nat)
    requires i < |Top(cs)|
    ensures Top(cs)[i] in Top(cs) && Top(cs)[i] in cs
  {
    TopIsCheapest(cs);
  }

  lemma OthersMember(cs: seq<Candidate>, keys: set<(Direction, int)>, i: nat)
    requires i < |Others(cs, keys)|
    ensures Others(cs, keys)[i] in cs
  {
    OthersCount(cs, keys);
  }

  lemma UnscreenedIsSound(cs: seq<Candidate>, noCatalog: bool, screen: Screening, c: Candidate, round3: real -> real)
    requires c in cs
    ensures SoundChoice(cs, noCatalog, screen, FuelOnly(cs, c, round3))
    ensures SoundChoice(cs, noCatalog, screen, Unscreened(cs, c, round3))
  {}

  lemma ScreenedIsSound(cs: seq<Candidate>, screen: Screening, c: Candidate, round3: real -> real)
    requires c in cs && c in Top(cs)
    ensures SoundChoice(cs, false, screen, WithScreening(cs, c, screen(c), round3))
  {
    SafeExactly(cs, c, screen(c), round3);
  }

  /** A candidate that was screened without a significant secondary above 1e-6 is never passed over for one that
      was not. */
  lemma SafeCandidateWins(cs: seq<Candidate>, screen: Screening, k: nat, round3: real -> real, i: nat)
    requires cs != [] && i < k <= |Top(cs)| && NoRiskFound(screen(Top(cs)[i]))
    requires ScoredList(cs, false, screen, k, round3) != []
    ensures var best := SortBy(ScoredList(cs, false, screen, k, round3), Rank())[0];
      best.screened && NoRiskFound(screen(best.cand))
  {
    var list := ScoredList(cs, false, screen, k, round3);
    BestInClass(list);
    ChoiceIsSound(cs, false, screen, k, round3);
    SafeExactly(cs, Top(cs)[i], screen(Top(cs)[i]), round3);
    assert list[i] == WithScreening(cs, Top(cs)[i], screen(Top(cs)[i]), round3);
    assert list[i] in list;
  }

  datatype Selection =
    | NoCandidates
    | NothingScored
    | Selected(best: Scored, alternatives: seq<Scored>, evaluated: nat, screened: nat, safe: nat)

  /** The selection; NothingScored stands for the exception the program raises when the time limit
      leaves it without a single scored candidate.  `elapsed(i)` is the clock before the i-th screening. */
  method SelectOptimalManeuver(cs: seq<Candidate>, noCatalog: bool, screen: Screening, elapsed: nat -> real,
                               round3: real -> real) returns (r: Selection)
    ensures cs == [] <==> r == NoCandidates
    ensures cs != [] ==>
      var k := ScreenedCount(|Top(cs)|, elapsed, 0);
      var list := ScoredList(cs, noCatalog, screen, k, round3);
      var ranked := SortBy(list, Rank());
      if list == [] then r == NothingScored
      else ranked != [] && r == Selected(ranked[0], Alternatives(ranked[1..], {}, 3), |list|,
                                         CountIf(ranked, IsScreened()), CountIf(ranked, IsSafe()))
    ensures r.Selected? ==> SoundChoice(cs, noCatalog, screen, r.best)
    ensures r.Selected? ==> |r.alternatives| <= 3 && DistinctSKeys(r.alternatives)
  {
    if cs == [] {
      return NoCandidates;
    }
    var scored := ScoreAll(cs, noCatalog, screen, elapsed, round3);
    Preorders();
    SortFacts(scored, Rank());
    var ranked := SortBy(scored, Rank());
    if ranked == [] {
      return NothingScored;
    }
    ChoiceIsSound(cs, noCatalog, screen, ScreenedCount(|Top(cs)|, elapsed, 0), round3);
    AlternativesAreDistinct(ranked[1..], {}, 3);
    var alternatives := TakeAlternatives(ranked[1..]);
    return Selected(ranked[0], alternatives, |scored|,
                    CountIf(ranked, IsScreened()), CountIf(ranked, IsSafe()));
  }

  method ScoreAll(cs: seq<Candidate>, noCatalog: bool, screen: Screening, elapsed: nat -> real, round3: real -> real)
    returns (scored: seq<Scored>)
    requires cs != []
    ensures scored == ScoredList(cs, noCatalog, screen, ScreenedCount(|Top(cs)|, elapsed, 0), round3)
  {
    if noCatalog {
      scored := ScoreOnFuel(cs, round3);
    } else {
      scored := ScreenTop(cs, screen, elapsed, round3);
      var rest := Remaining(cs, Keys(Top(cs)));
      scored := scored + FuelScored(cs, rest, round3);
    }
  }

  method ScoreOnFuel(cs: seq<Candidate>, round3: real -> real) returns (scored: seq<Scored>)
    requires cs != []
    ensures scored == seq(|cs|, i requires 0 <= i < |cs| => FuelOnly(cs, cs[i], round3))
  {
    scored := [];
    for i := 0 to |cs|
      invariant |scored| == i && forall j :: 0 <= j < i ==> scored[j] == FuelOnly(cs, cs[j], round3)
    {
      scored := scored + [FuelOnly(cs, cs[i], round3)];
    }
  }

  method Remaining(cs: seq<Candidate>, keys: set<(Direction, int)>) returns (rest: seq<Candidate>)
    ensures rest == Others(cs, keys)
  {
    rest := [];
    for i := 0 to |cs|
      invariant rest == Others(cs[..i], keys)
    {
      assert cs[..i + 1][..i] == cs[..i];
      if Key(cs[i]) !in keys {
        rest := rest + [cs[i]];
      }
    }
    assert cs[..|cs|] == cs;
  }

  method ScreenTop(cs: seq<Candidate>, screen: Screening, elapsed: nat -> real, round3: real -> real)
    returns (scored: seq<Scored>)
    requires cs != []
    ensures var top, k := Top(cs), ScreenedCount(|Top(cs)|, elapsed, 0);
      k <= |top| && scored == Screened(cs, top, screen, k, round3)
  {
    var top := Top(cs);
    scored := [];
    var i := 0;
    while i < |top|
      invariant 0 <= i <= |top|
      invariant ScreenedCount(|top|, elapsed, 0) == ScreenedCount(|top|, elapsed, i)
      invariant |scored| == i
      invariant forall j :: 0 <= j < i ==> scored[j] == WithScreening(cs, top[j], screen(top[j]), round3)
    {
      if elapsed(i) > TIME_LIMIT {
        break;
      }
      scored := scored + [WithScreening(cs, top[i], screen(top[i]), round3)];
      i := i + 1;
    }
  }

  method TakeAlternatives(s: seq<Scored>) returns (alternatives: seq<Scored>)
    ensures alternatives == Alternatives(s, {}, 3)
  {
    alternatives := [];
    var seen: set<(Direction, int)> := {};
    for i := 0 to |s|
      invariant |alternatives| <= 3
      invariant alternatives + Alternatives(s[i..], seen, 3 - |alternatives|) == Alternatives(s, {}, 3)
    {
      AlternativesFrom(s, i, seen, 3 - |alternatives|);
      if Key(s[i].cand) !in seen && |alternatives| < 3 {
        seen := seen + {Key(s[i].cand)};
        alternatives := alternatives + [s[i]];
      }
    }
  }

  /** The recommendation belongs to the best class present - screened and safe, then screened, then the
      rest - and has the least combined score of its class. */
  lemma BestInClass(list: seq<Scored>)
    requires list != []
    ensures var best := SortBy(list, Rank())[0];
      && best in list
      && (forall s :: s in list ==> Class(best) <= Class(s))
      && (forall s :: s in list && Class(s) == Class(best) ==> best.combined <= s.combined)
      && ((exists s :: s in list && s.screened && s.safe == Some(true)) ==> best.screened && best.safe == Some(true))
      && ((exists s :: s in list && s.screened) ==> best.screened)
  {
    Preorders();
    SortFacts(list, Rank());
    var ranked := SortBy(list, Rank());
    SortMembers(list, Rank(), ranked[0]);
    forall s | s in list
      ensures RankLe(ranked[0], s)
    {
      SortMembers(list, Rank(), s);
      var j :| 0 <= j < |ranked| && ranked[j] == s;
      assert Rank()(ranked[0], ranked[j]);
    }
  }

  /** The numbers reported: with distinct keys the evaluated count is the screened ones plus all but the
      (at most two) cheapest.  Nothing at all is scored only when a catalogue, at most two candidates and a
      clock that jumps by more than 25 seconds between its first two readings meet. */
  lemma EvaluatedCount(cs: seq<Candidate>, noCatalog: bool, screen: Screening, elapsed: nat -> real,
                       round3: real -> real)
    requires cs != [] && DistinctKeys(cs)
    ensures var k := ScreenedCount(|Top(cs)|, elapsed, 0);
      && k <= |Top(cs)| == (if |cs| <= 2 then |cs| else 2)
      && |ScoredList(cs, noCatalog, screen, k, round3)|
         == if noCatalog then |cs| else k + |cs| - |Top(cs)|
    ensures var k := ScreenedCount(|Top(cs)|, elapsed, 0);
      k <= |Top(cs)| &&
      (ScoredList(cs, noCatalog, screen, k, round3) == [] <==> !noCatalog && |cs| <= 2 && elapsed(0) > TIME_LIMIT)
  {
    Preorders();
    SortFacts(cs, Cheaper());
    UnscreenedAreAllButTheTop(cs);
  }

  /** For the program's own 21 candidates: at most two are screened, the other 19 always scored, and a
      recommendation always exists. */
  lemma GeneratedAreEvaluated(e: Encounter, screen: Screening, elapsed: nat -> real, round3: real -> real)
    requires Generated(e).Some?
    ensures var cs := Generated(e).value;
      |cs| == 21 && |Top(cs)| == 2 &&
      var k := ScreenedCount(2, elapsed, 0);
      k <= 2 && |ScoredList(cs, false, screen, k, round3)| == k + 19
  {
    GeneratedKeysAreDistinct(e);
    EvaluatedCount(Generated(e).value, false, screen, elapsed, round3);
  }

  /** The screened count reported is the number of screenings made. */
  lemma ScreenedCountReported(cs: seq<Candidate>, noCatalog: bool, screen: Screening, k: nat, round3: real -> real)
    requires cs != [] && k <= |Top(cs)|
    ensures CountIf(SortBy(ScoredList(cs, noCatalog, screen, k, round3), Rank()), IsScreened()) ==
            if noCatalog then 0 else k
  {
    SortCount(ScoredList(cs, noCatalog, screen, k, round3), Rank(), IsScreened());
    if noCatalog {
      CountNone(ScoredList(cs, noCatalog, screen, k, round3), IsScreened());
    } else {
      ScreenedAreScreened(cs, Top(cs), screen, k, round3);
      FuelScoredAreNot(cs, Others(cs, Keys(Top(cs))), round3);
      CountIfConcat(Screened(cs, Top(cs), screen, k, round3), FuelScored(cs, Others(cs, Keys(Top(cs))), round3),
                    IsScreened());
    }
  }

  /** The safe count reported: without a catalogue every candidate counts as safe though none was screened; with
      one only screened candidates count, and all of them exactly when none found a risk. */
  lemma SafeCountReported(cs: seq<Candidate>, noCatalog: bool, screen: Screening, k: nat, round3: real -> real)
    requires cs != [] && k <= |Top(cs)|
    ensures var safe := CountIf(SortBy(ScoredList(cs, noCatalog, screen, k, round3), Rank()), IsSafe());
      if noCatalog then safe == |cs|
      else safe <= k && (safe == k <==> forall i :: 0 <= i < k ==> NoRiskFound(screen(Top(cs)[i])))
  {
    SortCount(ScoredList(cs, noCatalog, screen, k, round3), Rank(), IsSafe());
    if noCatalog {
      CountEvery(ScoredList(cs, noCatalog, screen, k, round3), IsSafe());
    } else {
      var rest := FuelScored(cs, Others(cs, Keys(Top(cs))), round3);
      CountIfConcat(Screened(cs, Top(cs), screen, k, round3), rest, IsSafe());
      CountNone(rest, IsSafe());
      SafeAmongScreened(cs, Top(cs), screen, k, round3);
    }
  }

  lemma SafeAmongScreened(cs: seq<Candidate>, top: seq<Candidate>, screen: Screening, k: nat, round3: real -> real)
    requires cs != [] && k <= |top|
    ensures var safe := CountIf(Screened(cs, top, screen, k, round3), IsSafe());
      safe <= k && (safe == k <==> forall i :: 0 <= i < k ==> NoRiskFound(screen(top[i])))
  {
    var list := Screened(cs, top, screen, k, round3);
    CountAll(list, IsSafe());
    forall i | 0 <= i < k
      ensures IsSafe()(list[i]) <==> NoRiskFound(screen(top[i]))
    {
      SafeExactly(cs, top[i], screen(top[i]), round3);
    }
  }

  lemma {:induction false} CountAll<T>(s: seq<T>, p: T -> bool)
    ensures CountIf(s, p) <= |s| && (CountIf(s, p) == |s| <==> forall i :: 0 <= i < |s| ==> p(s[i]))
  {
    if s != [] {
      CountAll(s[..|s| - 1], p);
      assert forall i :: 0 <= i < |s| - 1 ==> s[..|s| - 1][i] == s[i];
    }
  }

  lemma ScreenedAreScreened(cs: seq<Candidate>, top: seq<Candidate>, screen: Screening, k: nat, round3: real -> real)
    requires cs != [] && k <= |top|
    ensures CountIf(Screened(cs, top, screen, k, round3), IsScreened()) == k
  {
    CountEvery(Screened(cs, top, screen, k, round3), IsScreened());
  }

  lemma FuelScoredAreNot(cs: seq<Candidate>, rest: seq<Candidate>, round3: real -> real)
    requires cs != []
    ensures CountIf(FuelScored(cs, rest, round3), IsScreened()) == 0
  {
    CountNone(FuelScored(cs, rest, round3), IsScreened());
  }

  /** A candidate whose screening raised an exception is ranked as screened and safe. */
  lemma FailedScreeningLooksSafe(cs: seq<Candidate>, c: Candidate, round3: real -> real)
    requires cs != []
    ensures Class(WithScreening(cs, c, None, round3)) == 0
  {}
}
