/** The second half of the debris ranking: a removal priority in 0..100 and the ranked lists.  The
    logarithms and the rounding are parameters. */
module DebrisRanking {
  import opened Prelude
  import opened Sorting
  import opened DebrisMetrics

  // ---------- The priority ----------

  function Upper(s: string): string {
    if s == "" then "" else [if 'a' <= s[0] <= 'z' then s[0] - 'a' + 'A' else s[0]] + Upper(s[1..])
  }

  predicate Contains(s: string, part: string) {
    part <= s || (s != "" && Contains(s[1..], part))
  }

  function MassProxy(name: string): real {
    if Contains(Upper(name), "R/B") then 1.0 else if Contains(Upper(name), "DEB") then 0.4 else 0.6
  }

  function Persistence(altitude: Option<real>): real {
    if altitude.None? then 0.5
    else if altitude.value < 500.0 then 0.2
    else if altitude.value < 700.0 then 0.45
    else if altitude.value < 900.0 then 0.75
    else if altitude.value < 1200.0 then 1.0
    else 0.9
  }

  datatype Maths = Maths(log1p: real -> real, log10: real -> real, round2: real -> real)

  /** What the scores need of the logarithms and the rounding; log10 matters for positive arguments only. */
  ghost predicate Sound(m: Maths) {
    && Monotone(m.log1p) && m.log1p(0.0) == 0.0 && m.log1p(50.0) > 0.0 && m.log1p(750.0) > 0.0
    && (forall x: real, y: real :: 0.0 < x <= y ==> m.log10(x) <= m.log10(y))
    && Monotone(m.round2) && m.round2(0.0) == 0.0 && m.round2(100.0) == 100.0
  }

  function Min1(x: real): real { if x < 1.0 then x else 1.0 }

  function Clamp(x: real): real { if x < 0.0 then 0.0 else Min1(x) }

  /** Logarithmic share of a saturation point. */
  function Share(m: Maths, n: nat, full: real): real
    requires m.log1p(full) != 0.0
  {
    Min1(m.log1p(n as real) / m.log1p(full))
  }

  function Peak(m: Maths, maxPc: real): real {
    if maxPc > 0.0 then Clamp((m.log10(maxPc) + 6.0) / 6.0) else 0.0
  }

  function Severity(m: Maths, maxPc: real, cumPc: real): real {
    0.7 * Peak(m, maxPc) + 0.3 * Min1(cumPc / 0.5)
  }

  function Weighted(freq: real, spread: real, severity: real, persistence: real, mass: real): real {
    (0.28 * freq + 0.24 * spread + 0.22 * severity + 0.16 * persistence + 0.10 * mass) * 100.0
  }

  /** The priority before rounding. */
  function Score(m: Maths, x: Metrics, altitude: Option<real>): real
    requires m.log1p(50.0) != 0.0 && m.log1p(750.0) != 0.0
  {
    Weighted(Share(m, x.count, 750.0), Share(m, |x.others|, 50.0), Severity(m, x.maxPc, x.cumPc),
             Persistence(altitude), MassProxy(x.name))
  }

  function Priority(m: Maths, x: Metrics, altitude: Option<real>): real
    requires m.log1p(50.0) != 0.0 && m.log1p(750.0) != 0.0
  {
    m.round2(Score(m, x, altitude))
  }

  // ---------- What the terms mean ----------

  /** Between two objects the difference in score is 28 points of frequency, 24 of spread, 22 of severity, 16 of
      persistence and 10 of mass, each times the difference in that term. */
  lemma TermsWeigh(m: Maths, x: Metrics, a: Option<real>, y: Metrics, b: Option<real>)
    requires m.log1p(50.0) != 0.0 && m.log1p(750.0) != 0.0
    ensures Score(m, y, b) - Score(m, x, a) ==
            28.0 * (Share(m, y.count, 750.0) - Share(m, x.count, 750.0))
            + 24.0 * (Share(m, |y.others|, 50.0) - Share(m, |x.others|, 50.0))
            + 22.0 * (Severity(m, y.maxPc, y.cumPc) - Severity(m, x.maxPc, x.cumPc))
            + 16.0 * (Persistence(b) - Persistence(a)) + 10.0 * (MassProxy(y.name) - MassProxy(x.name))
  {}

  /** Altitudes from the least to the most lasting: under 500 km, from 500, unknown, from 700, from 1200, and from
      900 to 1200 km; in hundredths 20, 45, 50, 75, 90 and 100. */
  lemma PersistenceByAltitude(h: real)
    ensures 100.0 * Persistence(None) == 50.0
    ensures h < 500.0 ==> 100.0 * Persistence(Some(h)) == 20.0
    ensures 500.0 <= h < 700.0 ==> 100.0 * Persistence(Some(h)) == 45.0
    ensures 700.0 <= h < 900.0 ==> 100.0 * Persistence(Some(h)) == 75.0
    ensures 900.0 <= h < 1200.0 ==> 100.0 * Persistence(Some(h)) == 100.0
    ensures 1200.0 <= h ==> 100.0 * Persistence(Some(h)) == 90.0
  {}

  predicate Occurs(s: string, part: string, i: int) {
    0 <= i <= |s| - |part| && s[i..i + |part|] == part
  }

  lemma {:induction false} ContainsExactly(s: string, part: string)
    ensures Contains(s, part) <==> exists i :: Occurs(s, part, i)
  {
    if part <= s {
      assert Occurs(s, part, 0);
    } else {
      assert !Occurs(s, part, 0);
      if s != "" {
        ContainsExactly(s[1..], part);
        forall i
          ensures i > 0 ==> (Occurs(s, part, i) <==> Occurs(s[1..], part, i - 1))
        {
          OccursLater(s, part, i);
        }
        assert forall j {:trigger Occurs(s[1..], part, j)} :: Occurs(s[1..], part, j) ==> Occurs(s, part, j + 1);
      }
    }
  }

  lemma OccursLater(s: string, part: string, i: int)
    requires s != ""
    ensures i > 0 ==> (Occurs(s, part, i) <==> Occurs(s[1..], part, i - 1))
  {
    if 0 < i <= |s| - |part| {
      assert s[1..][i - 1..i - 1 + |part|] == s[i..i + |part|];
    }
  }

  lemma {:induction false} UpperExactly(s: string)
    ensures |Upper(s)| == |s|
    ensures forall i :: 0 <= i < |s| ==>
      Upper(s)[i] as int == s[i] as int - (if 97 <= s[i] as int <= 122 then 32 else 0)
  {
    if s != "" {
      UpperExactly(s[1..]);
    }
  }

  /** Rocket bodies weigh most, then intact objects, then fragments; a name with both marks is a rocket body. */
  lemma MassByName(name: string)
    ensures Contains(Upper(name), "R/B") ==> 10.0 * MassProxy(name) == 10.0
    ensures !Contains(Upper(name), "R/B") && !Contains(Upper(name), "DEB") ==> 10.0 * MassProxy(name) == 6.0
    ensures !Contains(Upper(name), "R/B") && Contains(Upper(name), "DEB") ==> 10.0 * MassProxy(name) == 4.0
  {}

  /** The share grows from 0 with the logarithm of the count and is full from the saturation point on. */
  lemma ShareSaturates(m: Maths, n: nat, full: nat)
    requires Monotone(m.log1p) && m.log1p(0.0) == 0.0 && m.log1p(full as real) > 0.0
    ensures n >= full ==> Share(m, n, full as real) == 1.0
    ensures n <= full ==> Times(Share(m, n, full as real), m.log1p(full as real)) == m.log1p(n as real)
  {
    var top := m.log1p(full as real);
    var q := m.log1p(n as real) / top;
    assert q * top == m.log1p(n as real);
    if n <= full {
      assert m.log1p(n as real) <= m.log1p(full as real);
    } else {
      assert m.log1p(full as real) <= m.log1p(n as real);
    }
    AgainstOne(q, top, m.log1p(n as real));
  }

  lemma AgainstOne(q: real, d: real, x: real)
    requires d > 0.0 && q * d == x
    ensures x <= d ==> q <= 1.0
    ensures x >= d ==> q >= 1.0
  {
    if q > 1.0 {
      ProductPositive(q - 1.0, d, (q - 1.0) * d);
    }
    if q < 1.0 {
      ProductPositive(1.0 - q, d, (1.0 - q) * d);
    }
  }

  /** Seven tenths of the severity are the peak probability on a logarithmic scale from 1e-6 to 1, three tenths the
      cumulative one up to a half. */
  lemma SeverityMeans(m: Maths, maxPc: real, cumPc: real)
    ensures maxPc <= 0.0 && cumPc >= 0.5 ==> 10.0 * Severity(m, maxPc, cumPc) == 3.0
    ensures maxPc <= 0.0 && cumPc <= 0.5 ==> 10.0 * Severity(m, maxPc, cumPc) == 6.0 * cumPc
    ensures maxPc > 0.0 && -6.0 <= m.log10(maxPc) <= 0.0 ==>
      60.0 * (Severity(m, maxPc, cumPc) - Severity(m, 0.0, cumPc)) == 7.0 * (m.log10(maxPc) + 6.0)
    ensures maxPc > 0.0 && m.log10(maxPc) <= -6.0 ==> Severity(m, maxPc, cumPc) == Severity(m, 0.0, cumPc)
    ensures maxPc > 0.0 && m.log10(maxPc) >= 0.0 ==> Severity(m, maxPc, cumPc) == Severity(m, 0.0, cumPc) + 0.7
  {}

  predicate Unit(x: real) {
    0.0 <= x <= 1.0
  }

  lemma ShareFacts(m: Maths, n: nat, n': nat, full: real)
    requires Sound(m) && n <= n' && (full == 50.0 || full == 750.0)
    ensures Unit(Share(m, n, full)) && Share(m, n, full) <= Share(m, n', full)
  {
    var a, b, d := m.log1p(n as real), m.log1p(n' as real), m.log1p(full);
    assert m.log1p(0.0) <= m.log1p(n as real) <= m.log1p(n' as real);
    QuotientOrder(a, b, d);
  }

  lemma QuotientOrder(a: real, b: real, d: real)
    requires 0.0 <= a <= b && 0.0 < d
    ensures 0.0 <= a / d <= b / d
  {}

  lemma SeverityFacts(m: Maths, p: real, c: real, p': real, c': real)
    requires Sound(m) && 0.0 <= p <= p' && 0.0 <= c <= c'
    ensures Unit(Severity(m, p, c)) && Severity(m, p, c) <= Severity(m, p', c')
  {
    if p > 0.0 {
      assert m.log10(p) <= m.log10(p');
    }
    assert Peak(m, p) <= Peak(m, p');
  }

  /** `y` is at least as threatening as `x` and has a name of the same kind. */
  ghost predicate Dominates(y: Metrics, x: Metrics) {
    AtLeast(y, x) && MassProxy(x.name) == MassProxy(y.name)
  }

  /** Every priority lies in 0..100 and never falls when the metrics grow. */
  lemma PriorityFacts(m: Maths, x: Metrics, y: Metrics, altitude: Option<real>)
    requires Sound(m) && Dominates(y, x)
    ensures 0.0 <= Priority(m, x, altitude) <= Priority(m, y, altitude) <= 100.0
  {
    SubsetSize(x.others, y.others);
    ShareFacts(m, x.count, y.count, 750.0);
    ShareFacts(m, y.count, y.count, 750.0);
    ShareFacts(m, |x.others|, |y.others|, 50.0);
    ShareFacts(m, |y.others|, |y.others|, 50.0);
    SeverityFacts(m, x.maxPc, x.cumPc, y.maxPc, y.cumPc);
    SeverityFacts(m, y.maxPc, y.cumPc, y.maxPc, y.cumPc);
    var p, q := Persistence(altitude), MassProxy(x.name);
    WeightedFacts(Share(m, x.count, 750.0), Share(m, |x.others|, 50.0), Severity(m, x.maxPc, x.cumPc),
                  Share(m, y.count, 750.0), Share(m, |y.others|, 50.0), Severity(m, y.maxPc, y.cumPc), p, q);
    var a := Weighted(Share(m, x.count, 750.0), Share(m, |x.others|, 50.0), Severity(m, x.maxPc, x.cumPc), p, q);
    var b := Weighted(Share(m, y.count, 750.0), Share(m, |y.others|, 50.0), Severity(m, y.maxPc, y.cumPc), p, q);
    assert m.round2(0.0) <= m.round2(a) <= m.round2(b) <= m.round2(100.0);
  }

  lemma WeightedFacts(f: real, s: real, v: real, f': real, s': real, v': real, p: real, q: real)
    requires Unit(f) && Unit(s) && Unit(v) && Unit(f') && Unit(s') && Unit(v') && Unit(p) && Unit(q)
    requires f <= f' && s <= s' && v <= v'
    ensures 0.0 <= Weighted(f, s, v, p, q) <= Weighted(f', s', v', p, q) <= 100.0
  {}

  lemma SubsetSize<T>(a: set<T>, b: set<T>)
    requires a <= b
    ensures |a| <= |b|
  {
    assert b == a + (b - a);
    assert |a + (b - a)| == |a| + |b - a|;
  }

  /** One more CDM with a new id never lowers an object's priority, as long as its name keeps its kind. */
  lemma NewCdmNeverLowersPriority(m: Maths, debris: Pattern, cdms: seq<Cdm>, c: Cdm, key: string,
                                  altitude: Option<real>)
    requires Sound(m) && c.id != "" && c.id !in Dedup(cdms).rows
    requires c.pc >= 0.0 && forall d :: d in cdms ==> d.pc >= 0.0
    requires MassProxy(Current(debris, cdms, key).name) == MassProxy(Current(debris, cdms + [c], key).name)
    ensures Priority(m, Current(debris, cdms, key), altitude) <= Priority(m, Current(debris, cdms + [c], key), altitude)
  {
    NewCdmLowersNothing(debris, cdms, c, key);
    PriorityFacts(m, Current(debris, cdms, key), Current(debris, cdms + [c], key), altitude);
  }

  // ---------- The ranking ----------

  datatype Band = Low | Mid
  datatype Entry = Entry(norad: string, metrics: Metrics, priority: real, altitude: Option<real>, band: Option<Band>)

  function ClassifyBand(altitude: Option<real>): Option<Band> {
    if altitude.None? then None
    else if 500.0 <= altitude.value <= 600.0 then Some(Low)
    else if 1000.0 <= altitude.value <= 1200.0 then Some(Mid)
    else None
  }

  function EntryOf(m: Maths, key: string, x: Metrics, altitudes: map<string, real>): Entry
    requires m.log1p(50.0) != 0.0 && m.log1p(750.0) != 0.0
  {
    var altitude := if key in altitudes then Some(altitudes[key]) else None;
    Entry(key, x, Priority(m, x, altitude), altitude, ClassifyBand(altitude))
  }

  /** The lower list is for average altitudes of 500 to 600 km, the middle one for 1000 to 1200 km. */
  lemma {:induction false} BandListsByAltitude(m: Maths, keys: seq<string>, rows: map<string, Metrics>,
                                               altitudes: map<string, real>)
    requires m.log1p(50.0) != 0.0 && m.log1p(750.0) != 0.0
    ensures var list := Entries(m, keys, rows, altitudes);
      && (forall e :: e in InBand(list, Low) <==>
            e in list && e.norad in altitudes && 500.0 <= altitudes[e.norad] <= 600.0)
      && (forall e :: e in InBand(list, Mid) <==>
            e in list && e.norad in altitudes && 1000.0 <= altitudes[e.norad] <= 1200.0)
  {
    if keys != [] {
      var init, k := keys[..|keys| - 1], keys[|keys| - 1];
      BandListsByAltitude(m, init, rows, altitudes);
      var before := Entries(m, init, rows, altitudes);
      if k in rows {
        EntryBand(m, k, rows[k], altitudes);
        InBandAppend(before, EntryOf(m, k, rows[k], altitudes), Low);
        InBandAppend(before, EntryOf(m, k, rows[k], altitudes), Mid);
      } else {
        assert before + [] == before;
      }
    }
  }

  lemma EntryBand(m: Maths, key: string, x: Metrics, altitudes: map<string, real>)
    requires m.log1p(50.0) != 0.0 && m.log1p(750.0) != 0.0
    ensures var e := EntryOf(m, key, x, altitudes);
      && e.norad == key && e.metrics == x && e.altitude == Lookup(altitudes, key)
      && e.priority == Priority(m, x, Lookup(altitudes, key))
      && (e.band == Some(Low) <==> key in altitudes && 500.0 <= altitudes[key] <= 600.0)
      && (e.band == Some(Mid) <==> key in altitudes && 1000.0 <= altitudes[key] <= 1200.0)
  {}

  lemma InBandAppend(entries: seq<Entry>, e: Entry, band: Band)
    ensures InBand(entries + [e], band) == InBand(entries, band) + if e.band == Some(band) then [e] else []
  {
    assert (entries + [e])[..|entries + [e]| - 1] == entries;
  }

  function HigherFirst(): (Entry, Entry) -> bool {
    (a: Entry, b: Entry) => a.priority >= b.priority
  }

  function InBand(entries: seq<Entry>, band: Band): seq<Entry> {
    if entries == [] then []
    else
      var e := entries[|entries| - 1];
      InBand(entries[..|entries| - 1], band) + if e.band == Some(band) then [e] else []
  }

  datatype Rankings = Rankings(all: seq<Entry>, low: seq<Entry>, mid: seq<Entry>)

  /** One entry per key of the book, in key order. */
  function Entries(m: Maths, keys: seq<string>, rows: map<string, Metrics>, altitudes: map<string, real>): seq<Entry>
    requires m.log1p(50.0) != 0.0 && m.log1p(750.0) != 0.0
  {
    if keys == [] then []
    else
      var k := keys[|keys| - 1];
      Entries(m, keys[..|keys| - 1], rows, altitudes) + if k in rows then [EntryOf(m, k, rows[k], altitudes)] else []
  }

  method ComputeRankings(m: Maths, debris: Pattern, cdms: seq<Cdm>, altitudes: map<string, real>) returns (r: Rankings)
    requires m.log1p(50.0) != 0.0 && m.log1p(750.0) != 0.0
    ensures var b := NoteAll(AllIncidences(debris, Unique(cdms)));
      r.all == SortBy(Entries(m, b.keys, b.rows, altitudes), HigherFirst())
    ensures r.low == InBand(r.all, Low) && r.mid == InBand(r.all, Mid)
  {
    var byId := ById([], map[]);
    for i := 0 to |cdms|
      invariant byId == Dedup(cdms[..i])
    {
      assert cdms[..i + 1][..i] == cdms[..i];
      byId := Enter(byId, cdms[i]);
    }
    assert cdms[..|cdms|] == cdms;
    var book := BuildBook(debris, Values(byId.ids, byId.rows));
    var out := BuildEntries(m, book, altitudes);
    out := SortBy(out, HigherFirst());
    r := Rankings(out, InBand(out, Low), InBand(out, Mid));
  }

  method BuildEntries(m: Maths, book: Book, altitudes: map<string, real>) returns (out: seq<Entry>)
    requires m.log1p(50.0) != 0.0 && m.log1p(750.0) != 0.0
    ensures out == Entries(m, book.keys, book.rows, altitudes)
  {
    out := [];
    for i := 0 to |book.keys|
      invariant out == Entries(m, book.keys[..i], book.rows, altitudes)
    {
      var k := book.keys[i];
      assert book.keys[..i + 1][..i] == book.keys[..i];
      if k in book.rows {
        out := out + [EntryOf(m, k, book.rows[k], altitudes)];
      }
    }
    assert book.keys[..|book.keys|] == book.keys;
  }

  method BuildBook(debris: Pattern, unique: seq<Cdm>) returns (book: Book)
    ensures book == NoteAll(AllIncidences(debris, unique))
  {
    book := Book([], map[]);
    ghost var done: seq<Incidence> := [];
    for i := 0 to |unique|
      invariant done == AllIncidences(debris, unique[..i]) && book == NoteAll(done)
    {
      assert unique[..i + 1][..i] == unique[..i];
      book := NoteEach(book, done, Incidences(debris, unique[i]));
      done := done + Incidences(debris, unique[i]);
    }
    assert unique[..|unique|] == unique;
  }

  lemma NoteAppend(incs: seq<Incidence>, i: Incidence)
    ensures NoteAll(incs + [i]) == Note(NoteAll(incs), i)
  {
    assert (incs + [i])[..|incs + [i]| - 1] == incs;
  }

  method NoteEach(before: Book, ghost done: seq<Incidence>, incs: seq<Incidence>) returns (book: Book)
    requires before == NoteAll(done)
    ensures book == NoteAll(done + incs)
  {
    book := before;
    assert done + incs[..0] == done;
    for j := 0 to |incs|
      invariant book == NoteAll(done + incs[..j])
    {
      NoteAppend(done + incs[..j], incs[j]);
      assert done + incs[..j + 1] == done + incs[..j] + [incs[j]];
      book := Note(book, incs[j]);
    }
    assert incs[..|incs|] == incs;
  }

  lemma {:induction false} EntriesFacts(m: Maths, keys: seq<string>, rows: map<string, Metrics>,
                                        altitudes: map<string, real>)
    requires m.log1p(50.0) != 0.0 && m.log1p(750.0) != 0.0
    requires Distinct(keys) && forall k :: k in keys ==> k in rows
    ensures var list := Entries(m, keys, rows, altitudes);
      && |list| == |keys|
      && forall i :: 0 <= i < |list| ==> list[i] == EntryOf(m, keys[i], rows[keys[i]], altitudes)
  {
    if keys != [] {
      assert keys[|keys| - 1] in keys;
      EntriesFacts(m, keys[..|keys| - 1], rows, altitudes);
    }
  }

  /** Before sorting there is exactly one entry per debris object, with that object's own metrics. */
  lemma OneEntryPerObject(m: Maths, debris: Pattern, cdms: seq<Cdm>, altitudes: map<string, real>)
    requires m.log1p(50.0) != 0.0 && m.log1p(750.0) != 0.0
    ensures var b := NoteAll(AllIncidences(debris, Unique(cdms)));
      var list := Entries(m, b.keys, b.rows, altitudes);
      && (forall i, j :: 0 <= i < j < |list| ==> list[i].norad != list[j].norad)
      && (forall i :: 0 <= i < |list| ==> list[i].metrics == Current(debris, cdms, list[i].norad))
      && (forall k :: Of(debris, Unique(cdms), k) != [] ==> exists i :: 0 <= i < |list| && list[i].norad == k)
  {
    var incs := AllIncidences(debris, Unique(cdms));
    BookFacts(incs);
    EntriesOfBook(m, NoteAll(incs), incs, altitudes);
  }

  lemma EntriesOfBook(m: Maths, b: Book, incs: seq<Incidence>, altitudes: map<string, real>)
    requires m.log1p(50.0) != 0.0 && m.log1p(750.0) != 0.0 && Records(b, incs)
    ensures var list := Entries(m, b.keys, b.rows, altitudes);
      && (forall i, j :: 0 <= i < j < |list| ==> list[i].norad != list[j].norad)
      && (forall i :: 0 <= i < |list| ==> list[i].metrics == MetricsOf(ForKey(incs, list[i].norad)))
      && (forall k :: ForKey(incs, k) != [] ==> exists i :: 0 <= i < |list| && list[i].norad == k)
  {
    EntriesFacts(m, b.keys, b.rows, altitudes);
    var list := Entries(m, b.keys, b.rows, altitudes);
    forall i | 0 <= i < |list|
      ensures list[i].metrics == MetricsOf(ForKey(incs, list[i].norad))
    {
      assert b.keys[i] in b.keys;
      assert Lookup(b.rows, b.keys[i]) == RowOf(incs, b.keys[i]);
    }
    forall k | ForKey(incs, k) != []
      ensures exists i :: 0 <= i < |list| && list[i].norad == k
    {
      var i := KeyPosition(b, incs, k);
      assert list[i].norad == k;
    }
  }

  lemma KeyPosition(b: Book, incs: seq<Incidence>, k: string) returns (i: nat)
    requires Records(b, incs) && ForKey(incs, k) != []
    ensures i < |b.keys| && b.keys[i] == k
  {
    assert Lookup(b.rows, k) == RowOf(incs, k);
    i :| 0 <= i < |b.keys| && b.keys[i] == k;
  }

  /** The published lists are ordered by priority, and each band keeps the order of the whole list. */
  lemma {:induction false} BandsAreSublists(entries: seq<Entry>, band: Band)
    requires SortedBy(entries, HigherFirst())
    ensures SortedBy(InBand(entries, band), HigherFirst())
    ensures forall e :: e in InBand(entries, band) <==> e in entries && e.band == Some(band)
  {
    if entries != [] {
      var init, last := entries[..|entries| - 1], entries[|entries| - 1];
      assert entries == init + [last];
      BandsAreSublists(init, band);
      forall e | e in init
        ensures e.priority >= last.priority
      {
        var i :| 0 <= i < |init| && init[i] == e;
        assert HigherFirst()(entries[i], entries[|entries| - 1]);
      }
    }
  }

  lemma AllIsSorted(list: seq<Entry>)
    ensures SortedBy(SortBy(list, HigherFirst()), HigherFirst())
    ensures multiset(SortBy(list, HigherFirst())) == multiset(list)
    ensures var all := SortBy(list, HigherFirst());
      forall i, j :: 0 <= i < j < |all| ==> all[i].priority >= all[j].priority
  {
    assert TotalPreorder(HigherFirst());
    SortFacts(list, HigherFirst());
    var all := SortBy(list, HigherFirst());
    forall i, j | 0 <= i < j < |all|
      ensures all[i].priority >= all[j].priority
    {
      assert HigherFirst()(all[i], all[j]);
    }
  }
}
