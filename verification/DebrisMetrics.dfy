/** The first half of the debris ranking: de-duplicated CDMs folded into per-object metrics.  The name
    pattern that recognises debris is a parameter. */
module DebrisMetrics {
  import opened Prelude

  /** An empty id, name or number stands for a missing one; a missing fetch time for an explicit null. */
  datatype Cdm = Cdm(id: string, sat1: string, norad1: string, sat2: string, norad2: string, pc: real,
                     fetched: Option<int>)

  // ---------- De-duplication ----------

  /** The dictionary by CDM id, its keys in order of first appearance. */
  datatype ById = ById(ids: seq<string>, rows: map<string, Cdm>)

  /** A null fetch time reads "None", which sorts after every date: it neither replaces nor is replaced. */
  predicate Newer(c: Cdm, old_: Cdm) {
    c.fetched.Some? && old_.fetched.Some? && c.fetched.value > old_.fetched.value
  }

  function Enter(t: ById, c: Cdm): ById {
    if c.id == "" then t
    else if c.id !in t.rows then ById(t.ids + [c.id], t.rows[c.id := c])
    else if Newer(c, t.rows[c.id]) then ById(t.ids, t.rows[c.id := c])
    else t
  }

  function Dedup(cdms: seq<Cdm>): ById {
    if cdms == [] then ById([], map[]) else Enter(Dedup(cdms[..|cdms| - 1]), cdms[|cdms| - 1])
  }

  ghost predicate Distinct(ids: seq<string>) {
    forall i, j :: 0 <= i < j < |ids| ==> ids[i] != ids[j]
  }

  ghost predicate WellKeyed(t: ById) {
    && Distinct(t.ids)
    && (forall id :: id in t.ids <==> id in t.rows)
    && (forall id :: id in t.rows ==> id != "" && t.rows[id].id == id)
  }

  /** The records in key order. */
  function Values(ids: seq<string>, rows: map<string, Cdm>): seq<Cdm> {
    if ids == [] then []
    else Values(ids[..|ids| - 1], rows) + if ids[|ids| - 1] in rows then [rows[ids[|ids| - 1]]] else []
  }

  /** The de-duplicated CDMs. */
  function Unique(cdms: seq<Cdm>): seq<Cdm> {
    Values(Dedup(cdms).ids, Dedup(cdms).rows)
  }

  lemma {:induction false} DedupIsWellKeyed(cdms: seq<Cdm>)
    ensures WellKeyed(Dedup(cdms))
  {
    if cdms != [] {
      DedupIsWellKeyed(cdms[..|cdms| - 1]);
    }
  }

  lemma {:induction false} DedupMembers(cdms: seq<Cdm>)
    ensures forall id :: id in Dedup(cdms).rows ==> Dedup(cdms).rows[id] in cdms
  {
    if cdms != [] {
      DedupMembers(cdms[..|cdms| - 1]);
      assert cdms == cdms[..|cdms| - 1] + [cdms[|cdms| - 1]];
    }
  }

  /** Fetch times present, and different for different records of the same id. */
  ghost predicate DistinctTimes(cdms: seq<Cdm>) {
    && (forall c :: c in cdms ==> c.fetched.Some?)
    && (forall a, b :: a in cdms && b in cdms && a.id == b.id && a.fetched == b.fetched ==> a == b)
  }

  /** c is the latest of the records with its id. */
  ghost predicate IsLatest(c: Cdm, id: string, cdms: seq<Cdm>) {
    && c in cdms && c.id == id != "" && c.fetched.Some?
    && forall d :: d in cdms && d.id == id && d.fetched.Some? ==> d.fetched.value <= c.fetched.value
  }

  /** The record kept for an id is its latest; an id is kept when a record carries it. */
  lemma {:induction false} DedupKeepsLatest(cdms: seq<Cdm>, id: string)
    requires forall d :: d in cdms ==> d.fetched.Some?
    ensures id in Dedup(cdms).rows ==> IsLatest(Dedup(cdms).rows[id], id, cdms)
    ensures id !in Dedup(cdms).rows ==> forall d :: d in cdms ==> d.id == "" || d.id != id
  {
    if cdms != [] {
      var init, last := cdms[..|cdms| - 1], cdms[|cdms| - 1];
      assert cdms == init + [last];
      DedupKeepsLatest(init, id);
    }
  }

  /** Of records with equal or missing fetch times the first is kept. */
  lemma DedupKeepsFirst(cdms: seq<Cdm>, c: Cdm)
    requires c.id in Dedup(cdms).rows
    requires var kept := Dedup(cdms).rows[c.id];
      c.fetched.None? || kept.fetched.None? || c.fetched == kept.fetched
    ensures Dedup(cdms + [c]) == Dedup(cdms)
  {
    assert (cdms + [c])[..|cdms + [c]| - 1] == cdms;
  }

  /** With distinct fetch times the kept records do not depend on the order of the input. */
  lemma DedupIgnoresOrder(a: seq<Cdm>, b: seq<Cdm>)
    requires DistinctTimes(a) && multiset(a) == multiset(b)
    ensures Dedup(a).rows == Dedup(b).rows
  {
    SameMembers(a, b);
    forall id
      ensures Lookup(Dedup(a).rows, id) == Lookup(Dedup(b).rows, id)
    {
      SameKept(a, b, id);
    }
    SameMaps(Dedup(a).rows, Dedup(b).rows);
  }

  lemma SameKept(a: seq<Cdm>, b: seq<Cdm>, id: string)
    requires DistinctTimes(a) && forall c :: c in a <==> c in b
    ensures Lookup(Dedup(a).rows, id) == Lookup(Dedup(b).rows, id)
  {
    DedupKeepsLatest(a, id);
    DedupKeepsLatest(b, id);
    if id in Dedup(a).rows && id in Dedup(b).rows {
      LatestIsUnique(a, b, id, Dedup(a).rows[id], Dedup(b).rows[id]);
    }
  }

  lemma LatestIsUnique(a: seq<Cdm>, b: seq<Cdm>, id: string, x: Cdm, y: Cdm)
    requires DistinctTimes(a) && forall c :: c in a <==> c in b
    requires IsLatest(x, id, a) && IsLatest(y, id, b)
    ensures x == y
  {
    assert x in b && y in a;
    assert x.fetched == y.fetched;
  }

  lemma SameMembers<T>(a: seq<T>, b: seq<T>)
    requires multiset(a) == multiset(b)
    ensures forall x :: x in a <==> x in b
  {
    forall x
      ensures x in a <==> x in b
    {
      assert x in a <==> x in multiset(a);
      assert x in b <==> x in multiset(b);
    }
  }

  // ---------- Incidences ----------

  /** One appearance of a debris object in a CDM; an empty `other` stands for an unknown counterparty. */
  datatype Incidence = Incidence(key: string, name: string, other: string, pc: real, fetched: Option<int>)

  predicate Known(norad: string) {
    norad != "" && norad != "?"
  }

  type Pattern = string -> bool

  function Side(debris: Pattern, name: string, norad: string, other: string, c: Cdm): seq<Incidence> {
    if debris(name) && Known(norad) then
      [Incidence(norad, name, if Known(other) then other else "", c.pc, c.fetched)]
    else []
  }

  function Incidences(debris: Pattern, c: Cdm): seq<Incidence> {
    Side(debris, c.sat1, c.norad1, c.norad2, c) + Side(debris, c.sat2, c.norad2, c.norad1, c)
  }

  /** i is the incidence of debris `name` with a known number against the other object, as far as that is known. */
  ghost predicate IsSide(debris: Pattern, name: string, norad: string, other: string, c: Cdm, i: Incidence) {
    && debris(name) && norad !in {"", "?"}
    && i.key == norad && i.name == name && i.pc == c.pc && i.fetched == c.fetched
    && i.other == (if other == "?" then "" else other)
  }

  /** A CDM counts once for each of its two objects that is debris with a known number. */
  lemma IncidencesExactly(debris: Pattern, c: Cdm)
    ensures forall i :: i in Incidences(debris, c) <==>
      IsSide(debris, c.sat1, c.norad1, c.norad2, c, i) || IsSide(debris, c.sat2, c.norad2, c.norad1, c, i)
    ensures |Incidences(debris, c)| == (if debris(c.sat1) && c.norad1 !in {"", "?"} then 1 else 0)
                                       + (if debris(c.sat2) && c.norad2 !in {"", "?"} then 1 else 0)
  {
    SideExactly(debris, c.sat1, c.norad1, c.norad2, c);
    SideExactly(debris, c.sat2, c.norad2, c.norad1, c);
  }

  lemma SideExactly(debris: Pattern, name: string, norad: string, other: string, c: Cdm)
    ensures forall i :: i in Side(debris, name, norad, other, c) <==> IsSide(debris, name, norad, other, c, i)
  {
    forall i
      ensures i in Side(debris, name, norad, other, c) <==> IsSide(debris, name, norad, other, c, i)
    {
      if IsSide(debris, name, norad, other, c, i) {
        assert i == Incidence(norad, name, if Known(other) then other else "", c.pc, c.fetched);
      }
    }
  }

  function FlatMap<T, R>(f: T -> seq<R>, s: seq<T>): seq<R> {
    if s == [] then [] else FlatMap(f, s[..|s| - 1]) + f(s[|s| - 1])
  }

  function AllIncidences(debris: Pattern, cdms: seq<Cdm>): seq<Incidence> {
    FlatMap((c: Cdm) => Incidences(debris, c), cdms)
  }

  function ForKey(incs: seq<Incidence>, key: string): seq<Incidence> {
    if incs == [] then []
    else ForKey(incs[..|incs| - 1], key) + if incs[|incs| - 1].key == key then [incs[|incs| - 1]] else []
  }

  // ---------- Metrics ----------

  datatype Metrics = Metrics(name: string, count: nat, others: set<string>, maxPc: real, cumPc: real,
                             first: Option<int>, last: Option<int>)

  const NO_METRICS := Metrics("", 0, {}, 0.0, 0.0, None, None)

  function Accumulate(m: Metrics, i: Incidence): Metrics {
    Metrics(i.name, m.count + 1, if i.other != "" then m.others + {i.other} else m.others,
            if i.pc > m.maxPc then i.pc else m.maxPc, m.cumPc + i.pc,
            if i.fetched.Some? && (m.first.None? || i.fetched.value < m.first.value) then i.fetched else m.first,
            if i.fetched.Some? && (m.last.None? || i.fetched.value > m.last.value) then i.fetched else m.last)
  }

  function MetricsOf(incs: seq<Incidence>): Metrics {
    if incs == [] then NO_METRICS else Accumulate(MetricsOf(incs[..|incs| - 1]), incs[|incs| - 1])
  }

  /** The dictionary of metrics, its keys in order of first appearance. */
  datatype Book = Book(keys: seq<string>, rows: map<string, Metrics>)

  function Note(b: Book, i: Incidence): Book {
    if i.key in b.rows then b.(rows := b.rows[i.key := Accumulate(b.rows[i.key], i)])
    else Book(b.keys + [i.key], b.rows[i.key := Accumulate(NO_METRICS, i)])
  }

  function NoteAll(incs: seq<Incidence>): Book {
    if incs == [] then Book([], map[]) else Note(NoteAll(incs[..|incs| - 1]), incs[|incs| - 1])
  }

  function TotalCount(keys: seq<string>, rows: map<string, Metrics>): nat
    requires forall k :: k in keys ==> k in rows
  {
    if keys == [] then 0
    else TotalCount(keys[..|keys| - 1], rows) + rows[keys[|keys| - 1]].count
  }

  lemma {:induction false} TotalUnaffected(keys: seq<string>, rows: map<string, Metrics>, rows': map<string, Metrics>)
    requires forall k :: k in keys ==> k in rows && k in rows' && rows[k].count == rows'[k].count
    ensures TotalCount(keys, rows) == TotalCount(keys, rows')
  {
    if keys != [] {
      assert keys[|keys| - 1] in keys;
      TotalUnaffected(keys[..|keys| - 1], rows, rows');
    }
  }

  lemma {:induction false} TotalOneMore(keys: seq<string>, rows: map<string, Metrics>, rows': map<string, Metrics>,
                                        key: string)
    requires Distinct(keys) && key in keys
    requires forall k :: k in keys ==> k in rows && k in rows'
    requires forall k :: k in keys ==> rows'[k].count == rows[k].count + (if k == key then 1 else 0)
    ensures TotalCount(keys, rows') == TotalCount(keys, rows) + 1
  {
    var init, last := keys[..|keys| - 1], keys[|keys| - 1];
    assert keys == init + [last];
    assert last in keys;
    if last == key {
      forall k | k in init
        ensures k != key
      {
        var i :| 0 <= i < |init| && init[i] == k;
        assert keys[i] != keys[|keys| - 1];
      }
      TotalUnaffected(init, rows, rows');
    } else {
      TotalOneMore(init, rows, rows', key);
    }
  }

  lemma ForKeyAppend(incs: seq<Incidence>, i: Incidence, key: string)
    ensures ForKey(incs + [i], key) == ForKey(incs, key) + if i.key == key then [i] else []
    ensures MetricsOf(incs + [i]) == Accumulate(MetricsOf(incs), i)
  {
    assert (incs + [i])[..|incs + [i]| - 1] == incs;
  }

  function RowOf(incs: seq<Incidence>, key: string): Option<Metrics> {
    if ForKey(incs, key) == [] then None else Some(MetricsOf(ForKey(incs, key)))
  }

  ghost predicate WellIndexed(b: Book) {
    Distinct(b.keys) && forall k :: k in b.keys <==> k in b.rows
  }

  /** The book's row of an object is the metrics of its own incidences; it has a row exactly when it has
      one. */
  ghost predicate Records(b: Book, incs: seq<Incidence>) {
    WellIndexed(b) && forall k :: Lookup(b.rows, k) == RowOf(incs, k)
  }

  lemma NoteIndexed(b: Book, i: Incidence)
    requires WellIndexed(b)
    ensures WellIndexed(Note(b, i))
  {}

  lemma NoteRecords(b: Book, incs: seq<Incidence>, i: Incidence)
    requires Records(b, incs)
    ensures Records(Note(b, i), incs + [i])
  {
    NoteIndexed(b, i);
    forall k
      ensures Lookup(Note(b, i).rows, k) == RowOf(incs + [i], k)
    {
      assert Lookup(b.rows, k) == RowOf(incs, k);
      NoteRow(b, incs, i, k);
    }
  }

  lemma NoteRow(b: Book, incs: seq<Incidence>, i: Incidence, k: string)
    requires Lookup(b.rows, k) == RowOf(incs, k)
    ensures Lookup(Note(b, i).rows, k) == RowOf(incs + [i], k)
  {
    ForKeyAppend(incs, i, k);
    ForKeyAppend(ForKey(incs, k), i, k);
    if k == i.key {
      assert ForKey(incs + [i], k) == ForKey(incs, k) + [i] != [];
    } else {
      assert ForKey(incs + [i], k) == ForKey(incs, k);
    }
  }

  lemma {:induction false} BookFacts(incs: seq<Incidence>)
    ensures Records(NoteAll(incs), incs)
  {
    if incs != [] {
      var init, i := incs[..|incs| - 1], incs[|incs| - 1];
      assert incs == init + [i];
      BookFacts(init);
      NoteRecords(NoteAll(init), init, i);
    }
  }

  /** The counts of the book add up to all incidences. */
  lemma {:induction false} BookTotal(incs: seq<Incidence>)
    ensures Records(NoteAll(incs), incs) && TotalCount(NoteAll(incs).keys, NoteAll(incs).rows) == |incs|
  {
    BookFacts(incs);
    if incs != [] {
      var init, i := incs[..|incs| - 1], incs[|incs| - 1];
      BookTotal(init);
      var a, b := NoteAll(init), NoteAll(incs);
      assert b == Note(a, i);
      if i.key in a.rows {
        TotalOneMore(a.keys, a.rows, b.rows, i.key);
      } else {
        TotalUnaffected(a.keys, a.rows, b.rows);
        assert b.keys[..|b.keys| - 1] == a.keys;
      }
    }
  }

  /** The per-object counts add up to the debris incidences of the de-duplicated CDMs. */
  lemma CountsAddUp(debris: Pattern, cdms: seq<Cdm>)
    ensures var incs := AllIncidences(debris, Unique(cdms));
      && Records(NoteAll(incs), incs)
      && TotalCount(NoteAll(incs).keys, NoteAll(incs).rows) == |incs|
  {
    BookTotal(AllIncidences(debris, Unique(cdms)));
  }

  ghost predicate NonNegative(incs: seq<Incidence>) {
    forall i :: i in incs ==> i.pc >= 0.0
  }

  /** max Pc <= cumulative Pc <= count * max Pc. */
  lemma {:induction false} PcBounds(incs: seq<Incidence>)
    requires NonNegative(incs)
    ensures var m := MetricsOf(incs);
      m.count == |incs| && 0.0 <= m.maxPc <= m.cumPc <= Times(m.count as real, m.maxPc)
  {
    if incs == [] {
      assert Times(0.0, 0.0) == 0.0;
    } else {
      var init, last := incs[..|incs| - 1], incs[|incs| - 1];
      assert incs == init + [last];
      PcBounds(init);
      TimesGrows(MetricsOf(init).count, MetricsOf(init).maxPc, MetricsOf(incs).maxPc);
    }
  }

  /** The maximum Pc is the largest of an object's probabilities. */
  lemma {:induction false} MaxIsAttained(incs: seq<Incidence>)
    requires NonNegative(incs)
    ensures forall i :: i in incs ==> i.pc <= MetricsOf(incs).maxPc
    ensures incs == [] ==> MetricsOf(incs).maxPc == 0.0
    ensures incs != [] ==> exists i :: i in incs && i.pc == MetricsOf(incs).maxPc
  {
    if incs != [] {
      var init, last := incs[..|incs| - 1], incs[|incs| - 1];
      assert incs == init + [last];
      MaxIsAttained(init);
      assert MetricsOf(incs) == Accumulate(MetricsOf(init), last);
      if last.pc >= MetricsOf(init).maxPc {
        assert last in incs && last.pc == MetricsOf(incs).maxPc;
      } else {
        assert init != [] by { assert last in incs; }
        var i :| i in init && i.pc == MetricsOf(init).maxPc;
        assert i in incs && i.pc == MetricsOf(incs).maxPc;
      }
    }
  }

  lemma TimesGrows(n: nat, x: real, y: real)
    requires x <= y
    ensures Times(n as real, x) <= Times(n as real, y) && Times((n + 1) as real, y) == Times(n as real, y) + y
  {}

  // ---------- Independence of the input order ----------

  function SumPc(incs: seq<Incidence>): real {
    if incs == [] then 0.0 else SumPc(incs[..|incs| - 1]) + incs[|incs| - 1].pc
  }

  lemma {:induction false} SumPcConcat(a: seq<Incidence>, b: seq<Incidence>)
    ensures SumPc(a + b) == SumPc(a) + SumPc(b)
  {
    if b == [] {
      assert a + b == a;
    } else {
      assert (a + b)[..|a + b| - 1] == a + b[..|b| - 1];
      SumPcConcat(a, b[..|b| - 1]);
    }
  }

  lemma MultisetAround<T>(s: seq<T>, i: nat)
    requires i < |s|
    ensures multiset(s) == multiset(s[..i] + s[i + 1..]) + multiset{s[i]}
  {
    assert s == s[..i] + [s[i]] + s[i + 1..];
  }

  /** Splits a permutation around one occurrence of the other's last element. */
  lemma SplitAtLast<T>(a: seq<T>, b: seq<T>) returns (b1: seq<T>, b2: seq<T>)
    requires a != [] && multiset(a) == multiset(b)
    ensures b == b1 + [a[|a| - 1]] + b2 && multiset(a[..|a| - 1]) == multiset(b1 + b2)
  {
    var x := a[|a| - 1];
    SameMembers(a, b);
    assert x in a;
    var i :| 0 <= i < |b| && b[i] == x;
    b1, b2 := b[..i], b[i + 1..];
    MultisetAround(a, |a| - 1);
    MultisetAround(b, i);
    assert a[..|a| - 1] + a[|a|..] == a[..|a| - 1];
    CancelOne(multiset(a[..|a| - 1]), multiset(b1 + b2), x);
  }

  lemma CancelOne<T>(p: multiset<T>, q: multiset<T>, x: T)
    requires p + multiset{x} == q + multiset{x}
    ensures p == q
  {
    assert p == (p + multiset{x}) - multiset{x} == (q + multiset{x}) - multiset{x} == q;
  }

  lemma {:induction false} SumPcPermuted(a: seq<Incidence>, b: seq<Incidence>)
    requires multiset(a) == multiset(b)
    ensures SumPc(a) == SumPc(b)
    decreases |a|
  {
    if a == [] {
      assert |multiset(b)| == |b|;
    } else {
      var b1, b2 := SplitAtLast(a, b);
      SumPcPermuted(a[..|a| - 1], b1 + b2);
      SumPcConcat(b1, b2);
      SumPcConcat(b1 + [a[|a| - 1]], b2);
      SumPcConcat(b1, [a[|a| - 1]]);
    }
  }

  function Stamps(incs: seq<Incidence>): set<int> {
    set i | i in incs && i.fetched.Some? :: i.fetched.value
  }

  function Others(incs: seq<Incidence>): set<string> {
    set i | i in incs && i.other != "" :: i.other
  }

  ghost predicate IsLeast(o: Option<int>, s: set<int>) {
    if o.None? then s == {} else o.value in s && forall t :: t in s ==> o.value <= t
  }

  ghost predicate IsGreatest(o: Option<int>, s: set<int>) {
    if o.None? then s == {} else o.value in s && forall t :: t in s ==> t <= o.value
  }

  /** Every metric but the name is determined by what occurs, not by the order. */
  lemma {:induction false} SumsCharacterised(incs: seq<Incidence>)
    ensures var m := MetricsOf(incs);
      m.count == |incs| && m.others == Others(incs) && m.cumPc == SumPc(incs)
  {
    if incs != [] {
      var init, last := incs[..|incs| - 1], incs[|incs| - 1];
      assert incs == init + [last];
      SumsCharacterised(init);
      assert Others(incs) == Others(init) + if last.other != "" then {last.other} else {};
    }
  }

  lemma {:induction false} StampsCharacterised(incs: seq<Incidence>)
    ensures IsLeast(MetricsOf(incs).first, Stamps(incs)) && IsGreatest(MetricsOf(incs).last, Stamps(incs))
  {
    if incs != [] {
      var init, last := incs[..|incs| - 1], incs[|incs| - 1];
      assert incs == init + [last];
      StampsCharacterised(init);
      assert Stamps(incs) == Stamps(init) + if last.fetched.Some? then {last.fetched.value} else {};
    }
  }

  /** An object goes by the name of its last CDM. */
  lemma NamedByLast(incs: seq<Incidence>)
    requires incs != []
    ensures MetricsOf(incs).name == incs[|incs| - 1].name
  {}

  lemma SameContents(a: seq<Incidence>, b: seq<Incidence>)
    requires forall i :: i in a <==> i in b
    ensures Others(a) == Others(b) && Stamps(a) == Stamps(b)
  {}

  lemma SameMax(a: seq<Incidence>, b: seq<Incidence>)
    requires NonNegative(a) && NonNegative(b) && (a == [] <==> b == []) && forall i :: i in a <==> i in b
    ensures MetricsOf(a).maxPc == MetricsOf(b).maxPc
  {
    MaxIsAttained(a);
    MaxIsAttained(b);
  }

  lemma SameStamps(a: seq<Incidence>, b: seq<Incidence>)
    requires forall i :: i in a <==> i in b
    ensures MetricsOf(a).first == MetricsOf(b).first && MetricsOf(a).last == MetricsOf(b).last
    ensures MetricsOf(a).others == MetricsOf(b).others
  {
    SumsCharacterised(a);
    SumsCharacterised(b);
    StampsCharacterised(a);
    StampsCharacterised(b);
    SameContents(a, b);
  }

  lemma SameSums(a: seq<Incidence>, b: seq<Incidence>)
    requires multiset(a) == multiset(b)
    ensures MetricsOf(a).count == MetricsOf(b).count && MetricsOf(a).cumPc == MetricsOf(b).cumPc
  {
    SumsCharacterised(a);
    SumsCharacterised(b);
    SumPcPermuted(a, b);
    assert |multiset(a)| == |a| && |multiset(b)| == |b|;
  }

  lemma MetricsPermuted(a: seq<Incidence>, b: seq<Incidence>)
    requires NonNegative(a) && multiset(a) == multiset(b)
    ensures MetricsOf(a).(name := "") == MetricsOf(b).(name := "")
  {
    SameMembers(a, b);
    assert |multiset(a)| == |a| && |multiset(b)| == |b|;
    SameStamps(a, b);
    SameMax(a, b);
    SameSums(a, b);
  }

  lemma {:induction false} ForKeyConcat(a: seq<Incidence>, b: seq<Incidence>, key: string)
    ensures ForKey(a + b, key) == ForKey(a, key) + ForKey(b, key)
  {
    if b == [] {
      assert a + b == a;
    } else {
      assert (a + b)[..|a + b| - 1] == a + b[..|b| - 1];
      ForKeyConcat(a, b[..|b| - 1], key);
    }
  }

  lemma {:induction false} FlatMapConcat<T, R>(f: T -> seq<R>, a: seq<T>, b: seq<T>)
    ensures FlatMap(f, a + b) == FlatMap(f, a) + FlatMap(f, b)
  {
    if b == [] {
      assert a + b == a;
    } else {
      assert (a + b)[..|a + b| - 1] == a + b[..|b| - 1];
      FlatMapConcat(f, a, b[..|b| - 1]);
    }
  }

  function Of(debris: Pattern, cdms: seq<Cdm>, key: string): seq<Incidence> {
    ForKey(AllIncidences(debris, cdms), key)
  }

  /** An object's metrics after all CDMs. */
  function Current(debris: Pattern, cdms: seq<Cdm>, key: string): Metrics {
    MetricsOf(Of(debris, Unique(cdms), key))
  }

  lemma OfConcat(debris: Pattern, a: seq<Cdm>, b: seq<Cdm>, key: string)
    ensures Of(debris, a + b, key) == Of(debris, a, key) + Of(debris, b, key)
  {
    FlatMapConcat((c: Cdm) => Incidences(debris, c), a, b);
    ForKeyConcat(AllIncidences(debris, a), AllIncidences(debris, b), key);
  }

  lemma {:induction false} OfPermuted(debris: Pattern, a: seq<Cdm>, b: seq<Cdm>, key: string)
    requires multiset(a) == multiset(b)
    ensures multiset(Of(debris, a, key)) == multiset(Of(debris, b, key))
    decreases |a|
  {
    if a == [] {
      assert |multiset(b)| == |b|;
    } else {
      var x := [a[|a| - 1]];
      var b1, b2 := SplitAtLast(a, b);
      OfPermuted(debris, a[..|a| - 1], b1 + b2, key);
      assert a == a[..|a| - 1] + x;
      OfConcat(debris, a[..|a| - 1], x, key);
      OfAround(debris, b1, x, b2, key);
    }
  }

  lemma OfAround(debris: Pattern, b1: seq<Cdm>, x: seq<Cdm>, b2: seq<Cdm>, key: string)
    ensures multiset(Of(debris, b1 + x + b2, key)) == multiset(Of(debris, b1 + b2, key)) + multiset(Of(debris, x, key))
  {
    OfConcat(debris, b1, b2, key);
    OfConcat(debris, b1 + x, b2, key);
    OfConcat(debris, b1, x, key);
  }

  /** Two orders of the same keys list the same values. */
  lemma {:induction false} ValuesPermuted(ids: seq<string>, ids': seq<string>, rows: map<string, Cdm>)
    requires Distinct(ids) && Distinct(ids')
    requires forall id :: id in ids <==> id in ids'
    ensures multiset(Values(ids, rows)) == multiset(Values(ids', rows))
    decreases |ids|
  {
    if ids == [] {
      SameEmptiness(ids, ids');
    } else {
      var init, x := ids[..|ids| - 1], ids[|ids| - 1];
      assert x in ids;
      var i :| 0 <= i < |ids'| && ids'[i] == x;
      RemoveOne(ids, |ids| - 1);
      RemoveOne(ids', i);
      assert Without(ids, |ids| - 1) == init;
      ValuesPermuted(init, Without(ids', i), rows);
      ValuesAround(ids, |ids| - 1, rows);
      ValuesAround(ids', i, rows);
    }
  }

  lemma SameEmptiness(a: seq<string>, b: seq<string>)
    requires forall x :: x in a <==> x in b
    ensures b != [] ==> a != []
  {
    if b != [] {
      assert b[0] in b;
    }
  }

  function Without(ids: seq<string>, i: nat): seq<string>
    requires i < |ids|
  {
    ids[..i] + ids[i + 1..]
  }

  lemma RemoveOne(ids: seq<string>, i: nat)
    requires Distinct(ids) && i < |ids|
    ensures Distinct(Without(ids, i))
    ensures forall id :: id in Without(ids, i) <==> id in ids && id != ids[i]
  {
    var c := Without(ids, i);
    assert forall k :: 0 <= k < |c| ==> c[k] == ids[if k < i then k else k + 1];
    forall id | id in ids && id != ids[i]
      ensures id in c
    {
      var k :| 0 <= k < |ids| && ids[k] == id;
      assert c[if k < i then k else k - 1] == id;
    }
  }

  lemma ValuesAround(ids: seq<string>, i: nat, rows: map<string, Cdm>)
    requires i < |ids|
    ensures multiset(Values(ids, rows)) == multiset(Values(Without(ids, i), rows)) + multiset(Values([ids[i]], rows))
  {
    var b1, x, b2 := ids[..i], [ids[i]], ids[i + 1..];
    assert ids == b1 + x + b2;
    ValuesConcat(b1 + x, b2, rows);
    ValuesConcat(b1, x, rows);
    ValuesConcat(b1, b2, rows);
  }

  lemma {:induction false} ValuesConcat(a: seq<string>, b: seq<string>, rows: map<string, Cdm>)
    ensures Values(a + b, rows) == Values(a, rows) + Values(b, rows)
  {
    if b == [] {
      assert a + b == a;
    } else {
      assert (a + b)[..|a + b| - 1] == a + b[..|b| - 1];
      ValuesConcat(a, b[..|b| - 1], rows);
    }
  }

  lemma {:induction false} ValuesMembers(ids: seq<string>, rows: map<string, Cdm>)
    ensures forall c :: c in Values(ids, rows) ==> exists id :: id in ids && id in rows && rows[id] == c
  {
    if ids != [] {
      ValuesMembers(ids[..|ids| - 1], rows);
      assert ids[|ids| - 1] in ids;
    }
  }

  lemma UniqueNonNegative(cdms: seq<Cdm>)
    requires forall c :: c in cdms ==> c.pc >= 0.0
    ensures forall c :: c in Unique(cdms) ==> c.pc >= 0.0
  {
    DedupMembers(cdms);
    ValuesMembers(Dedup(cdms).ids, Dedup(cdms).rows);
  }

  /** With distinct fetch times no metric depends on the order in which the CDMs arrive; only the name,
      the last one seen, can. */
  lemma MetricsIgnoreOrder(debris: Pattern, a: seq<Cdm>, b: seq<Cdm>, key: string)
    requires DistinctTimes(a) && multiset(a) == multiset(b)
    requires forall c :: c in a ==> c.pc >= 0.0
    ensures Current(debris, a, key).(name := "") == Current(debris, b, key).(name := "")
  {
    DedupIsWellKeyed(a);
    DedupIsWellKeyed(b);
    DedupIgnoresOrder(a, b);
    ValuesPermuted(Dedup(a).ids, Dedup(b).ids, Dedup(a).rows);
    OfPermuted(debris, Unique(a), Unique(b), key);
    UniqueNonNegative(a);
    OfNonNegative(debris, Unique(a), key);
    MetricsPermuted(Of(debris, Unique(a), key), Of(debris, Unique(b), key));
  }

  lemma {:induction false} AllIncidencesNonNegative(debris: Pattern, cdms: seq<Cdm>)
    requires forall c :: c in cdms ==> c.pc >= 0.0
    ensures NonNegative(AllIncidences(debris, cdms))
  {
    if cdms != [] {
      AllIncidencesNonNegative(debris, cdms[..|cdms| - 1]);
    }
  }

  lemma {:induction false} ForKeyMembers(incs: seq<Incidence>, key: string)
    ensures forall i :: i in ForKey(incs, key) <==> i in incs && i.key == key
  {
    if incs != [] {
      ForKeyMembers(incs[..|incs| - 1], key);
      assert incs == incs[..|incs| - 1] + [incs[|incs| - 1]];
    }
  }

  lemma OfNonNegative(debris: Pattern, cdms: seq<Cdm>, key: string)
    requires forall c :: c in cdms ==> c.pc >= 0.0
    ensures NonNegative(Of(debris, cdms, key))
  {
    AllIncidencesNonNegative(debris, cdms);
    ForKeyMembers(AllIncidences(debris, cdms), key);
  }

  /** `y` is at least as large as `x` in every metric. */
  ghost predicate AtLeast(y: Metrics, x: Metrics) {
    x.count <= y.count && x.others <= y.others && 0.0 <= x.maxPc <= y.maxPc && 0.0 <= x.cumPc <= y.cumPc
  }

  lemma {:induction false} MoreIncidences(a: seq<Incidence>, b: seq<Incidence>)
    requires NonNegative(a) && NonNegative(b)
    ensures AtLeast(MetricsOf(a + b), MetricsOf(a))
  {
    if b == [] {
      assert a + b == a;
      PcBounds(a);
    } else {
      assert (a + b)[..|a + b| - 1] == a + b[..|b| - 1];
      MoreIncidences(a, b[..|b| - 1]);
      assert b[|b| - 1] in b;
    }
  }

  /** One more CDM with a new id lowers no metric of any object. */
  lemma NewCdmLowersNothing(debris: Pattern, cdms: seq<Cdm>, c: Cdm, key: string)
    requires c.id != "" && c.id !in Dedup(cdms).rows
    requires c.pc >= 0.0 && forall d :: d in cdms ==> d.pc >= 0.0
    ensures AtLeast(Current(debris, cdms + [c], key), Current(debris, cdms, key))
  {
    UniqueAppend(cdms, c);
    OfConcat(debris, Unique(cdms), [c], key);
    UniqueNonNegative(cdms);
    OfNonNegative(debris, Unique(cdms), key);
    OfNonNegative(debris, [c], key);
    MoreIncidences(Of(debris, Unique(cdms), key), Of(debris, [c], key));
  }

  lemma UniqueAppend(cdms: seq<Cdm>, c: Cdm)
    requires c.id != "" && c.id !in Dedup(cdms).rows
    ensures Unique(cdms + [c]) == Unique(cdms) + [c]
  {
    var t := Dedup(cdms);
    DedupIsWellKeyed(cdms);
    assert (cdms + [c])[..|cdms + [c]| - 1] == cdms;
    var ids, rows := t.ids + [c.id], t.rows[c.id := c];
    assert Dedup(cdms + [c]) == ById(ids, rows);
    assert ids[..|ids| - 1] == t.ids && ids[|ids| - 1] == c.id;
    assert Values(ids, rows) == Values(t.ids, rows) + [c];
    ValuesLocal(t.ids, t.rows, rows);
    assert Unique(cdms + [c]) == Values(ids, rows);
    assert Unique(cdms) == Values(t.ids, t.rows);
  }

  lemma {:induction false} ValuesLocal(ids: seq<string>, rows: map<string, Cdm>, rows': map<string, Cdm>)
    requires forall id :: id in ids ==> id in rows && id in rows' && rows[id] == rows'[id]
    ensures Values(ids, rows) == Values(ids, rows')
  {
    if ids != [] {
      assert ids[|ids| - 1] in ids;
      ValuesLocal(ids[..|ids| - 1], rows, rows');
    }
  }
}
