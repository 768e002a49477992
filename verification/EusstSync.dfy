/** The EU SST incremental sync: paginated fetch, upsert, and the update-date watermark, judged over
    all runs in which server updates fall between any two steps of the sync, fetches fail and the
    process crashes. */
module EusstSync {
  import opened Prelude

  const PAGE_SIZE := 500

  /** Dates are seconds since the epoch; an empty id stands for a missing one. */
  datatype Event = Event(id: string, date: real, payload: string)

  // ---------- Pagination ----------

  /** The page asked for with $skip = k * PAGE_SIZE out of what the server lists at that moment. */
  function Page(listing: seq<Event>, k: nat): seq<Event> {
    var lo := if k * PAGE_SIZE <= |listing| then k * PAGE_SIZE else |listing|;
    var hi := if lo + PAGE_SIZE <= |listing| then lo + PAGE_SIZE else |listing|;
    listing[lo..hi]
  }

  /** What the server lists at the moment of each page request. */
  type Listings = nat -> seq<Event>

  /** Pages 0 to k-1, each taken from the listing of its own moment. */
  function Collected(listing: Listings, k: nat): seq<Event> {
    if k == 0 then [] else Collected(listing, k - 1) + Page(listing(k - 1), k - 1)
  }

  /** The fetch reads full pages up to number `last`, which is short. */
  ghost predicate EndsAt(listing: Listings, last: nat) {
    FullUpTo(listing, last) && |Page(listing(last), last)| < PAGE_SIZE
  }

  ghost predicate FullUpTo(listing: Listings, last: nat) {
    forall k :: 0 <= k < last ==> |Page(listing(k), k)| == PAGE_SIZE
  }

  /** Every page still reads the same at the last request. */
  ghost predicate PagesAgree(listing: Listings, last: nat) {
    forall k :: 0 <= k < last ==> Page(listing(k), k) == Page(listing(last), k)
  }

  lemma {:induction false} CollectedPages(listing: Listings, k: nat, j: nat)
    requires j < k && FullUpTo(listing, k)
    ensures |Collected(listing, k)| == k * PAGE_SIZE
    ensures Collected(listing, k)[j * PAGE_SIZE..(j + 1) * PAGE_SIZE] == Page(listing(j), j)
  {
    assert |Page(listing(k - 1), k - 1)| == PAGE_SIZE;
    if k > 1 {
      CollectedPages(listing, k - 1, if j < k - 1 then j else 0);
    }
  }

  /** A full page extends a prefix by its length. */
  lemma NextPage(prefix: seq<Event>, now: seq<Event>, k: nat)
    requires k * PAGE_SIZE <= |now| && prefix == now[..k * PAGE_SIZE] && |Page(now, k)| == PAGE_SIZE
    ensures (k + 1) * PAGE_SIZE <= |now| && prefix + Page(now, k) == now[..(k + 1) * PAGE_SIZE]
  {
    var lo, hi := k * PAGE_SIZE, (k + 1) * PAGE_SIZE;
    assert hi == lo + PAGE_SIZE;
    assert Page(now, k) == now[lo..hi];
    assert now[..lo] + now[lo..hi] == now[..hi];
  }

  lemma {:induction false} AgreeingPagesAreAPrefix(listing: Listings, last: nat, k: nat)
    requires FullUpTo(listing, last) && PagesAgree(listing, last) && k <= last
    ensures k * PAGE_SIZE <= |listing(last)| && Collected(listing, k) == listing(last)[..k * PAGE_SIZE]
  {
    if k > 0 {
      AgreeingPagesAreAPrefix(listing, last, k - 1);
      assert Page(listing(k - 1), k - 1) == Page(listing(last), k - 1);
      NextPage(Collected(listing, k - 1), listing(last), k - 1);
    }
  }

  /** The pages add up to what the server lists at the last request - every event once, none missed -
      exactly when none of the earlier pages has changed by then. */
  lemma PagesCoverListing(listing: Listings, last: nat)
    requires EndsAt(listing, last)
    ensures Collected(listing, last + 1) == listing(last) <==> PagesAgree(listing, last)
  {
    var now := listing(last);
    if PagesAgree(listing, last) {
      AgreeingPagesAreAPrefix(listing, last, last);
      assert Page(now, last) == now[last * PAGE_SIZE..];
    }
    if Collected(listing, last + 1) == now {
      forall k | 0 <= k < last
        ensures Page(listing(k), k) == Page(now, k)
      {
        PrefixPage(listing, last, k, now);
      }
    }
  }

  lemma PrefixPage(listing: Listings, last: nat, k: nat, now: seq<Event>)
    requires k < last && FullUpTo(listing, last) && Collected(listing, last) <= now
    ensures Page(listing(k), k) == Page(now, k)
  {
    var all, lo, hi := Collected(listing, last), k * PAGE_SIZE, (k + 1) * PAGE_SIZE;
    CollectedPages(listing, last, k);
    assert hi <= last * PAGE_SIZE == |all|;
    assert now[..|all|] == all;
    assert now[lo..hi] == all[lo..hi];
  }

  /** A listing that only grows at its end keeps its full pages. */
  lemma AppendingKeepsPages(listing: Listings, last: nat)
    requires EndsAt(listing, last) && forall k :: 0 <= k < last ==> listing(k) <= listing(last)
    ensures PagesAgree(listing, last)
  {
    forall k | 0 <= k < last
      ensures Page(listing(k), k) == Page(listing(last), k)
    {
      assert listing(k) <= listing(last) && |Page(listing(k), k)| == PAGE_SIZE;
    }
  }

  // ---------- What the server answers ----------

  /** The filter sent to the server: the watermark is formatted to whole seconds. */
  predicate After(e: Event, since: Option<real>) {
    since.None? || e.date > since.value.Floor as real
  }

  ghost predicate DistinctIds(events: seq<Event>) {
    forall i, j :: 0 <= i < j < |events| ==> events[i].id != events[j].id
  }

  /** The server's listing at one moment: each matching event once, in any order. */
  ghost predicate Lists(listing: seq<Event>, server: map<string, Event>, since: Option<real>) {
    && DistinctIds(listing)
    && (forall e :: e in listing ==> e.id in server && server[e.id] == e && After(e, since))
    && (forall id :: id in server && After(server[id], since) ==> server[id] in listing)
  }

  // ---------- Rows, upsert, newest date ----------

  function Named(events: seq<Event>): seq<Event> {
    if events == [] then []
    else Named(events[..|events| - 1]) + if events[|events| - 1].id != "" then [events[|events| - 1]] else []
  }

  function Upserted(table: map<string, Event>, rows: seq<Event>): map<string, Event> {
    if rows == [] then table
    else Upserted(table, rows[..|rows| - 1])[rows[|rows| - 1].id := rows[|rows| - 1]]
  }

  function MaxDate(rows: seq<Event>): Option<real> {
    if rows == [] then None
    else
      var m, d := MaxDate(rows[..|rows| - 1]), rows[|rows| - 1].date;
      if m.None? || d > m.value then Some(d) else m
  }

  /** The last of the rows with an id. */
  function Latest(rows: seq<Event>, id: string): Option<Event> {
    if rows == [] then None
    else if rows[|rows| - 1].id == id then Some(rows[|rows| - 1])
    else Latest(rows[..|rows| - 1], id)
  }

  lemma {:induction false} NamedKeeps(events: seq<Event>, e: Event)
    ensures e in Named(events) <==> e in events && e.id != ""
  {
    if events != [] {
      NamedKeeps(events[..|events| - 1], e);
      assert events == events[..|events| - 1] + [events[|events| - 1]];
    }
  }

  lemma LatestAppend(rows: seq<Event>, e: Event, id: string)
    ensures Latest(rows + [e], id) == if e.id == id then Some(e) else Latest(rows, id)
  {
    assert (rows + [e])[..|rows + [e]| - 1] == rows;
  }

  lemma {:induction false} LatestNamed(events: seq<Event>, id: string)
    ensures Latest(Named(events), id) == if id == "" then None else Latest(events, id)
  {
    if events != [] {
      var init, last := events[..|events| - 1], events[|events| - 1];
      LatestNamed(init, id);
      if last.id != "" {
        LatestAppend(Named(init), last, id);
      } else {
        assert Named(events) == Named(init);
      }
    }
  }

  /** An upsert stores the last row of each id and touches no other. */
  lemma {:induction false} UpsertedRows(table: map<string, Event>, rows: seq<Event>, id: string)
    ensures Lookup(Upserted(table, rows), id) ==
            if Latest(rows, id).Some? then Latest(rows, id) else Lookup(table, id)
  {
    if rows != [] {
      UpsertedRows(table, rows[..|rows| - 1], id);
    }
  }

  lemma {:induction false} LatestIsARow(rows: seq<Event>, id: string)
    ensures Latest(rows, id).Some? ==> Latest(rows, id).value in rows && Latest(rows, id).value.id == id
    ensures Latest(rows, id).None? ==> forall e :: e in rows ==> e.id != id
  {
    if rows != [] {
      LatestIsARow(rows[..|rows| - 1], id);
      assert rows == rows[..|rows| - 1] + [rows[|rows| - 1]];
    }
  }

  lemma {:induction false} LatestOfDistinct(rows: seq<Event>, e: Event)
    requires DistinctIds(rows) && e in rows
    ensures Latest(rows, e.id) == Some(e)
  {
    var last := rows[|rows| - 1];
    if e != last {
      var i :| 0 <= i < |rows| && rows[i] == e;
      assert rows[i].id != rows[|rows| - 1].id;
      assert rows[..|rows| - 1][i] == e;
      LatestOfDistinct(rows[..|rows| - 1], e);
    }
  }

  lemma {:induction false} MaxDateIsMax(rows: seq<Event>)
    ensures rows != [] ==> MaxDate(rows).Some?
    ensures MaxDate(rows).Some? ==> exists e :: e in rows && e.date == MaxDate(rows).value
    ensures forall e :: e in rows ==> MaxDate(rows).Some? && e.date <= MaxDate(rows).value
  {
    if rows != [] {
      var init, r := rows[..|rows| - 1], rows[|rows| - 1];
      MaxDateIsMax(init);
      assert rows == init + [r];
      assert r in rows;
      if MaxDate(init).Some? {
        var e :| e in init && e.date == MaxDate(init).value;
        assert e in rows;
      }
    }
  }

  // ---------- Whole runs ----------

  /** A fetch under way: its filter, the pages read so far, their rows, and whether the last was short. */
  datatype Fetch = Fetch(since: Option<real>, pages: nat, rows: seq<Event>, ended: bool)

  /** What this platform holds. */
  datatype Local = Local(table: map<string, Event>, watermark: Option<real>, fetch: Option<Fetch>)

  /** The server with the latest date it ever issued, and the platform. */
  datatype World = World(server: map<string, Event>, newest: real, local: Local)

  /** The smallest steps: an update on the server, and the platform's own - one page request, a fetch given
      up (by an error, or a crash before the commit), a commit whose watermark is never written, and a
      completed sync. */
  datatype Action =
    | ServerPut(event: Event)
    | Start(full: bool)
    | Read(listing: seq<Event>)
    | Abandon
    | CommitOnly
    | Complete

  function Committed(l: Local): map<string, Event>
    requires l.fetch.Some?
  {
    Upserted(l.table, Named(l.fetch.value.rows))
  }

  function NewWatermark(l: Local): Option<real>
    requires l.fetch.Some?
  {
    var m := MaxDate(Named(l.fetch.value.rows));
    if m.Some? then m else l.watermark
  }

  function Since(l: Local, full: bool): Option<real> {
    if full then None else l.watermark
  }

  function LocalStep(l: Local, a: Action): Local {
    match a
    case ServerPut(_) => l
    case Start(full) => l.(fetch := Some(Fetch(Since(l, full), 0, [], false)))
    case Read(listing) =>
      if l.fetch.None? then l
      else
        var f := l.fetch.value;
        var page := Page(listing, f.pages);
        l.(fetch := Some(Fetch(f.since, f.pages + 1, f.rows + page, |page| < PAGE_SIZE)))
    case Abandon => l.(fetch := None)
    case CommitOnly => if l.fetch.None? then l else Local(Committed(l), l.watermark, None)
    case Complete => if l.fetch.None? then l else Local(Committed(l), NewWatermark(l), None)
  }

  function Step(w: World, a: Action): World {
    var next := w.(local := LocalStep(w.local, a));
    if a.ServerPut? then
      var e := a.event;
      next.(server := w.server[e.id := e], newest := if e.date > w.newest then e.date else w.newest)
    else next
  }

  /** The server never deletes, and a new date lies after the start of the newest date's second; a page is
      cut from what the server lists at that moment under the fetch's own filter. */
  ghost predicate Enabled(w: World, a: Action) {
    var f := w.local.fetch;
    match a
    case ServerPut(e) => e.date > w.newest.Floor as real
    case Start(_) => f.None?
    case Read(listing) => f.Some? && !f.value.ended && Lists(listing, w.server, f.value.since)
    case Abandon => f.Some?
    case CommitOnly => f.Some? && f.value.ended
    case Complete => f.Some? && f.value.ended
  }

  function Run(w: World, run: seq<Action>): World {
    if run == [] then w else Step(Run(w, run[..|run| - 1]), run[|run| - 1])
  }

  ghost predicate Possible(w: World, run: seq<Action>) {
    run == [] || (Possible(w, run[..|run| - 1]) && Enabled(Run(w, run[..|run| - 1]), run[|run| - 1]))
  }

  lemma RunAppend(w: World, run: seq<Action>, a: Action)
    ensures Run(w, run + [a]) == Step(Run(w, run), a)
    ensures Possible(w, run + [a]) <==> Possible(w, run) && Enabled(Run(w, run), a)
  {
    assert (run + [a])[..|run + [a]| - 1] == run;
  }

  /** What a full re-sync into an empty table stores. */
  function FullResync(server: map<string, Event>): map<string, Event> {
    map id | id in server && id != "" :: server[id]
  }

  // ---------- What every run keeps ----------

  /** A row read so far is the server's present version, or that version is newer than the watermark. */
  ghost predicate RowFits(w: World, since: Option<real>, r: Event) {
    && r.id in w.server && r.date <= w.newest && After(r, since)
    && (w.server[r.id] == r || After(w.server[r.id], w.local.watermark))
  }

  ghost predicate FetchFits(w: World, f: Fetch) {
    && (f.since.None? || f.since == w.local.watermark)
    && (f.pages == 0 ==> f.rows == [] && !f.ended)
    && forall r :: r in f.rows ==> RowFits(w, f.since, r)
  }

  ghost predicate Sane(w: World) {
    && (forall id :: id in w.server ==> w.server[id].id == id && w.server[id].date <= w.newest)
    && w.local.table.Keys <= w.server.Keys - {""}
    && (w.local.watermark.Some? ==> w.local.watermark.value <= w.newest)
    && (w.local.fetch.Some? ==> FetchFits(w, w.local.fetch.value))
  }

  /** Everything dated up to the watermark's second is stored as the server has it. */
  ghost predicate Covered(w: World) {
    forall id :: id in w.server && id != "" && !After(w.server[id], w.local.watermark)
      ==> Lookup(w.local.table, id) == Some(w.server[id])
  }

  ghost predicate Inv(w: World) {
    Sane(w) && Covered(w)
  }

  /** The fetch has an event right: it read the present version last, or it did not read the event and the
      watermark says it is stored already. */
  ghost predicate Current(w: World, id: string)
    requires w.local.fetch.Some? && id in w.server
  {
    var seen := Latest(w.local.fetch.value.rows, id);
    seen == Some(w.server[id]) || (seen.None? && !After(w.server[id], w.local.watermark))
  }

  /** The fetch has every event right that the watermark it is about to write will cover. */
  ghost predicate Clean(w: World)
    requires w.local.fetch.Some?
  {
    forall id :: id in w.server && id != "" && !After(w.server[id], NewWatermark(w.local)) ==> Current(w, id)
  }

  ghost predicate AllCurrent(w: World)
    requires w.local.fetch.Some?
  {
    forall id :: id in w.server && id != "" ==> Current(w, id)
  }

  lemma CommittedLookup(l: Local, id: string)
    requires l.fetch.Some?
    ensures Lookup(Committed(l), id) ==
            if id != "" && Latest(l.fetch.value.rows, id).Some? then Latest(l.fetch.value.rows, id)
            else Lookup(l.table, id)
  {
    UpsertedRows(l.table, Named(l.fetch.value.rows), id);
    LatestNamed(l.fetch.value.rows, id);
  }

  /** What the present watermark covers is never disturbed by a fetch. */
  lemma OldIsCurrent(w: World, id: string)
    requires Sane(w) && w.local.fetch.Some?
    requires id in w.server && !After(w.server[id], w.local.watermark)
    ensures Current(w, id)
  {
    LatestIsARow(w.local.fetch.value.rows, id);
  }

  /** A commit stores the server's version of every event the fetch has right. */
  lemma CommitRight(w: World, id: string)
    requires Inv(w) && w.local.fetch.Some?
    requires id in w.server && id != "" && Current(w, id)
    ensures Lookup(Committed(w.local), id) == Some(w.server[id])
  {
    CommittedLookup(w.local, id);
  }

  lemma NewWatermarkBound(w: World)
    requires Sane(w) && w.local.fetch.Some?
    ensures var m := NewWatermark(w.local); m.Some? ==> m.value <= w.newest
    ensures var f := w.local.fetch.value;
      f.since.Some? ==> NewWatermark(w.local).Some? && f.since.value.Floor <= NewWatermark(w.local).value.Floor
  {
    var f := w.local.fetch.value;
    var rows := Named(f.rows);
    MaxDateIsMax(rows);
    if MaxDate(rows).Some? {
      var e :| e in rows && e.date == MaxDate(rows).value;
      NamedKeeps(f.rows, e);
      assert RowFits(w, f.since, e);
    }
  }

  lemma CommittedKeys(w: World)
    requires Sane(w) && w.local.fetch.Some?
    ensures Committed(w.local).Keys <= w.server.Keys - {""}
  {
    forall id | id in Committed(w.local)
      ensures id in w.server && id != ""
    {
      CommittedLookup(w.local, id);
      LatestIsARow(w.local.fetch.value.rows, id);
      assert Lookup(Committed(w.local), id).Some?;
      assert id in w.local.table <==> Lookup(w.local.table, id).Some?;
    }
  }

  lemma FloorMonotone(a: real, b: real)
    requires a <= b
    ensures a.Floor <= b.Floor
  {}

  lemma StepKeepsSane(w: World, a: Action)
    requires Sane(w) && Enabled(w, a)
    ensures Sane(Step(w, a))
  {
    match a
    case ServerPut(e) =>
      if w.local.watermark.Some? {
        FloorMonotone(w.local.watermark.value, w.newest);
      }
    case Start(_) =>
    case Read(listing) =>
      var f := w.local.fetch.value;
      forall r | r in f.rows + Page(listing, f.pages)
        ensures RowFits(w, f.since, r)
      {
        if r !in f.rows {
          assert r in listing;
        }
      }
    case Abandon =>
    case CommitOnly => CommittedKeys(w);
    case Complete =>
      CommittedKeys(w);
      NewWatermarkBound(w);
  }

  /** Every step but a completed sync keeps everything covered, wherever server updates and crashes fall. */
  lemma StepKeepsInv(w: World, a: Action)
    requires Inv(w) && Enabled(w, a) && (a.Complete? ==> Clean(w))
    ensures Inv(Step(w, a))
  {
    StepKeepsSane(w, a);
    if a.ServerPut? && w.local.watermark.Some? {
      FloorMonotone(w.local.watermark.value, w.newest);
    } else if a.CommitOnly? || a.Complete? {
      var next := Step(w, a);
      forall id | id in w.server && id != "" && !After(w.server[id], next.local.watermark)
        ensures Lookup(next.local.table, id) == Some(w.server[id])
      {
        if a.CommitOnly? {
          OldIsCurrent(w, id);
        }
        CommitRight(w, id);
      }
    }
  }

  function WithTable(w: World, table: map<string, Event>): World {
    w.(local := w.local.(table := table))
  }

  /** A consistent table on which a commit goes wrong for an event the fetch does not have right. */
  lemma CommitWrong(w: World, id: string) returns (t: map<string, Event>)
    requires Sane(w) && w.local.fetch.Some?
    requires id in w.server && id != "" && !Current(w, id)
    ensures Inv(WithTable(w, t)) && Lookup(Committed(WithTable(w, t).local), id) != Some(w.server[id])
  {
    t := FullResync(w.server);
    if After(w.server[id], w.local.watermark) {
      t := t - {id};
    }
    CommittedLookup(WithTable(w, t).local, id);
  }

  /** A completed sync keeps everything covered, whatever consistent table it starts from, exactly when the
      fetch has every event right that the new watermark covers. */
  lemma CompletingIsSafeExactly(w: World)
    requires Sane(w) && Enabled(w, Complete)
    ensures Clean(w) <==>
      forall t :: Inv(WithTable(w, t)) ==> Inv(Step(WithTable(w, t), Complete))
  {
    if Clean(w) {
      forall t | Inv(WithTable(w, t))
        ensures Inv(Step(WithTable(w, t), Complete))
      {
        assert forall id :: id in w.server ==> (Current(w, id) <==> Current(WithTable(w, t), id));
        StepKeepsInv(WithTable(w, t), Complete);
      }
    } else {
      var id :| id in w.server && id != "" && !After(w.server[id], NewWatermark(w.local)) && !Current(w, id);
      var t := CommitWrong(w, id);
      assert !Covered(Step(WithTable(w, t), Complete));
    }
  }

  /** A completed sync gives a full re-sync's table, whatever consistent table it starts from, exactly when
      the fetch has every event of the server right. */
  lemma CompletingCatchesUpExactly(w: World)
    requires Sane(w) && Enabled(w, Complete)
    ensures AllCurrent(w) <==>
      forall t :: Inv(WithTable(w, t)) ==> Step(WithTable(w, t), Complete).local.table == FullResync(w.server)
  {
    if AllCurrent(w) {
      forall t | Inv(WithTable(w, t))
        ensures Step(WithTable(w, t), Complete).local.table == FullResync(w.server)
      {
        assert forall id :: id in w.server ==> (Current(w, id) <==> Current(WithTable(w, t), id));
        CatchesUp(WithTable(w, t));
      }
    } else {
      var id :| id in w.server && id != "" && !Current(w, id);
      var t := CommitWrong(w, id);
      assert Lookup(FullResync(w.server), id) == Some(w.server[id]);
    }
  }

  lemma CatchesUp(w: World)
    requires Inv(w) && w.local.fetch.Some? && AllCurrent(w)
    ensures Committed(w.local) == FullResync(w.server)
  {
    CommittedKeys(w);
    var t := Committed(w.local);
    forall id | id in w.server && id != ""
      ensures id in t && t[id] == w.server[id]
    {
      CommitRight(w, id);
    }
    assert t.Keys == FullResync(w.server).Keys;
  }

  /** Updates after the last page cannot make a clean fetch unclean: they lie beyond its watermark. */
  lemma LateUpdatesAreHarmless(w: World, e: Event)
    requires Sane(w) && w.local.fetch.Some? && Clean(w) && Enabled(w, ServerPut(e))
    ensures Clean(Step(w, ServerPut(e)))
  {
    NewWatermarkBound(w);
    var m, next := NewWatermark(w.local), Step(w, ServerPut(e));
    if m.Some? {
      FloorMonotone(m.value, w.newest);
    }
    forall id | id in next.server && id != "" && !After(next.server[id], m)
      ensures Current(next, id)
    {
      assert id != e.id && Current(w, id);
    }
  }

  /** Every completed sync of the run has a clean fetch. */
  ghost predicate AllClean(w: World, run: seq<Action>) {
    run == [] ||
    var before := Run(w, run[..|run| - 1]);
    AllClean(w, run[..|run| - 1])
      && (run[|run| - 1].Complete? ==> before.local.fetch.Some? && Clean(before))
  }

  lemma {:induction false} RunKeepsSane(w: World, run: seq<Action>)
    requires Sane(w) && Possible(w, run)
    ensures Sane(Run(w, run))
  {
    if run != [] {
      RunKeepsSane(w, run[..|run| - 1]);
      StepKeepsSane(Run(w, run[..|run| - 1]), run[|run| - 1]);
    }
  }

  /** Over every run - any server updates between any two steps, failed fetches, crashes on either side of
      the commit - everything stays covered as long as each completed sync had a clean fetch. */
  lemma {:induction false} RunKeepsInv(w: World, run: seq<Action>)
    requires Inv(w) && Possible(w, run) && AllClean(w, run)
    ensures Inv(Run(w, run))
  {
    if run != [] {
      RunKeepsInv(w, run[..|run| - 1]);
      StepKeepsInv(Run(w, run[..|run| - 1]), run[|run| - 1]);
    }
  }

  // ---------- Loss for good ----------

  /** An event below the watermark that is not stored as the server has it. */
  ghost predicate Lost(w: World, id: string) {
    && id in w.server && id != "" && !After(w.server[id], w.local.watermark)
    && Lookup(w.local.table, id) != Some(w.server[id])
    && (w.local.fetch.Some? ==> w.local.fetch.value.since == w.local.watermark)
  }

  ghost predicate Incremental(a: Action, id: string) {
    a != Start(true) && (a.ServerPut? ==> a.event.id != id)
  }

  lemma StepKeepsLost(w: World, a: Action, id: string)
    requires Sane(w) && Enabled(w, a) && Lost(w, id) && Incremental(a, id)
    ensures Lost(Step(w, a), id)
  {
    if a.CommitOnly? || a.Complete? {
      CommittedLookup(w.local, id);
      LatestIsARow(w.local.fetch.value.rows, id);
      NewWatermarkBound(w);
    }
  }

  /** A lost event stays lost through every further incremental sync, until the server updates it again or
      a full sync runs: no table on the way is that of a full re-sync. */
  lemma {:induction false} LostForGood(w: World, run: seq<Action>, id: string)
    requires Sane(w) && Possible(w, run) && Lost(w, id)
    requires forall a :: a in run ==> Incremental(a, id)
    ensures Lost(Run(w, run), id)
    ensures Run(w, run).local.table != FullResync(Run(w, run).server)
  {
    if run != [] {
      var init := run[..|run| - 1];
      assert forall a :: a in init ==> a in run;
      LostForGood(w, init, id);
      RunKeepsSane(w, init);
      assert run[|run| - 1] in run;
      StepKeepsLost(Run(w, init), run[|run| - 1], id);
    }
    assert Lookup(FullResync(Run(w, run).server), id) == Some(Run(w, run).server[id]);
  }

  /** An unclean fetch, completed, loses an event for good on some consistent table. */
  lemma UncleanFetchLoses(w: World) returns (t: map<string, Event>, id: string)
    requires Sane(w) && Enabled(w, Complete) && !Clean(w)
    ensures Inv(WithTable(w, t)) && Lost(Step(WithTable(w, t), Complete), id)
  {
    id :| id in w.server && id != "" && !After(w.server[id], NewWatermark(w.local)) && !Current(w, id);
    t := CommitWrong(w, id);
  }

  // ---------- Fetches that go wrong ----------

  ghost predicate Keyed(server: map<string, Event>) {
    forall id :: id in server ==> server[id].id == id
  }

  lemma ListsByIndex(listing: seq<Event>, server: map<string, Event>)
    requires DistinctIds(listing)
    requires forall i :: 0 <= i < |listing| ==> Lookup(server, listing[i].id) == Some(listing[i])
    requires forall id :: id in server ==> exists i :: 0 <= i < |listing| && listing[i] == server[id]
    ensures Lists(listing, server, None)
  {}

  lemma PutInPlace(listing: seq<Event>, server: map<string, Event>, i: nat, e: Event)
    requires Keyed(server) && Lists(listing, server, None) && i < |listing| && e.id == listing[i].id
    ensures Keyed(server[e.id := e]) && Lists(listing[i := e], server[e.id := e], None)
  {
    var after, next := listing[i := e], server[e.id := e];
    forall j | 0 <= j < |after|
      ensures Lookup(next, after[j].id) == Some(after[j])
    {
      if j != i {
        assert listing[j] in listing;
        assert listing[if i < j then i else j].id != listing[if i < j then j else i].id;
      }
    }
    forall id | id in next
      ensures exists j :: 0 <= j < |after| && after[j] == next[id]
    {
      if id == e.id {
        assert after[i] == e;
      } else {
        assert After(server[id], None) && server[id] in listing;
        var j :| 0 <= j < |listing| && listing[j] == server[id];
        assert after[j] == next[id];
      }
    }
    ListsByIndex(after, next);
  }

  lemma PutAtEnd(listing: seq<Event>, server: map<string, Event>, e: Event)
    requires Keyed(server) && Lists(listing, server, None) && listing != [] && e.id == listing[0].id
    ensures Lists(listing[1..] + [e], server[e.id := e], None)
  {
    var after, next, n := listing[1..] + [e], server[e.id := e], |listing|;
    assert forall j :: 0 <= j < n ==> after[j] == if j < n - 1 then listing[j + 1] else e;
    forall j | 0 <= j < n
      ensures Lookup(next, after[j].id) == Some(after[j])
    {
      if j < n - 1 {
        assert listing[j + 1] in listing && listing[0].id != listing[j + 1].id;
      }
    }
    forall id | id in next
      ensures exists j :: 0 <= j < n && after[j] == next[id]
    {
      if id == e.id {
        assert after[n - 1] == e;
      } else {
        assert listing[0] in listing;
        assert After(server[id], None) && server[id] in listing;
        var j :| 0 <= j < n && listing[j] == server[id];
        assert j > 0 && after[j - 1] == next[id];
      }
    }
    ListsByIndex(after, next);
  }

  function Id(i: nat): string {
    seq(i + 1, _ => 'e')
  }

  function Numbered(i: nat): Event {
    Event(Id(i), i as real, "")
  }

  /** 501 events, one more than fits on a page. */
  function Catalogue(): seq<Event> {
    seq(PAGE_SIZE + 1, (i: nat) => Numbered(i))
  }

  /** A platform that has not synced yet, facing a server with the catalogue. */
  function Fresh(): World {
    World(Upserted(map[], Catalogue()), 500.0, Local(map[], None, None))
  }

  lemma CatalogueIds(i: nat, j: nat)
    requires i != j
    ensures Id(i) != Id(j) && Id(i) != ""
  {
    assert |Id(i)| == i + 1 && |Id(j)| == j + 1;
  }

  lemma FreshFacts()
    ensures Inv(Fresh()) && DistinctIds(Catalogue()) && Lists(Catalogue(), Fresh().server, None)
    ensures forall i: nat :: i <= PAGE_SIZE ==> Lookup(Fresh().server, Id(i)) == Some(Numbered(i))
  {
    var first, server := Catalogue(), Fresh().server;
    forall i, j | 0 <= i < j < |first|
      ensures first[i].id != first[j].id
    {
      CatalogueIds(i, j);
    }
    forall i: nat | i <= PAGE_SIZE
      ensures Lookup(server, Id(i)) == Some(Numbered(i))
    {
      assert first[i] == Numbered(i);
      UpsertedRows(map[], first, Id(i));
      LatestOfDistinct(first, first[i]);
    }
    forall id | id in server
      ensures id != "" && server[id].id == id && server[id] in first && server[id].date <= 500.0
    {
      assert Lookup(server, id) == Some(server[id]);
      UpsertedRows(map[], first, id);
      LatestIsARow(first, id);
      var i :| 0 <= i < |first| && first[i] == server[id];
      assert first[i] == Numbered(i);
    }
    forall e | e in first
      ensures e.id in server && server[e.id] == e
    {
      var i :| 0 <= i < |first| && first[i] == e;
      assert first[i] == Numbered(i);
      assert Lookup(server, Id(i)) == Some(Numbered(i));
    }
  }

  /** The world once the first page of the catalogue has been read. */
  function HalfRead(server: map<string, Event>, newest: real): World {
    World(server, newest, Local(map[], None, Some(Fetch(None, 1, Catalogue()[..PAGE_SIZE], false))))
  }

  lemma FirstPage()
    ensures Possible(Fresh(), [Start(false), Read(Catalogue())])
    ensures Run(Fresh(), [Start(false), Read(Catalogue())]) == HalfRead(Fresh().server, 500.0)
  {
    FreshFacts();
    FirstSteps(Fresh(), Catalogue());
    assert [] + Page(Catalogue(), 0) == Catalogue()[..PAGE_SIZE];
  }

  lemma FirstSteps(w: World, listing: seq<Event>)
    requires w.local.fetch.None? && Lists(listing, w.server, w.local.watermark)
    ensures var run := [Start(false), Read(listing)];
      Possible(w, run) && Run(w, run) == Step(Step(w, Start(false)), Read(listing))
  {
    RunAppend(w, [], Start(false));
    RunAppend(w, [Start(false)], Read(listing));
    assert [] + [Start(false)] == [Start(false)];
    assert [Start(false)] + [Read(listing)] == [Start(false), Read(listing)];
  }

  /** Completing a fetch loses an event that its rows show last in another version, or not at all, when
      one of them is dated no earlier. */
  lemma LostOnCompletion(w: World, id: string, newest: Event)
    requires w.local.fetch.Some? && w.local.table == map[]
    requires id in w.server && id != "" && Latest(w.local.fetch.value.rows, id) != Some(w.server[id])
    requires newest in w.local.fetch.value.rows && newest.id != ""
    requires w.server[id].date <= newest.date.Floor as real
    ensures Lost(Step(w, Complete), id)
  {
    CommittedLookup(w.local, id);
    NewestIsCovered(w.local, newest);
  }

  lemma NewestIsCovered(l: Local, e: Event)
    requires l.fetch.Some? && e in l.fetch.value.rows && e.id != ""
    ensures NewWatermark(l).Some? && e.date.Floor <= NewWatermark(l).value.Floor
  {
    NamedKeeps(l.fetch.value.rows, e);
    MaxDateIsMax(Named(l.fetch.value.rows));
    FloorMonotone(e.date, NewWatermark(l).value);
  }

  function TwoPages(second: seq<Event>): seq<Event>
    requires |second| == PAGE_SIZE + 1
  {
    Catalogue()[..PAGE_SIZE] + [second[PAGE_SIZE]]
  }

  lemma ReadSecond(server: map<string, Event>, newest: real, second: seq<Event>)
    requires |second| == PAGE_SIZE + 1
    ensures Step(HalfRead(server, newest), Read(second)) ==
            World(server, newest, Local(map[], None, Some(Fetch(None, 2, TwoPages(second), true))))
  {
    assert Page(second, 1) == second[PAGE_SIZE..PAGE_SIZE + 1];
    OneElement(second, PAGE_SIZE);
  }

  lemma OneElement<T>(s: seq<T>, i: nat)
    requires i < |s|
    ensures s[i..i + 1] == [s[i]]
  {}

  /** The second page ends the fetch, and completing it then loses an event. */
  lemma SecondPage(w: World, run: seq<Action>, server: map<string, Event>, newest: real, second: seq<Event>, id: string)
    requires Possible(w, run) && Run(w, run) == HalfRead(server, newest)
    requires |second| == PAGE_SIZE + 1 && Lists(second, server, None)
    requires id in server && id != "" && second[PAGE_SIZE].id != ""
    requires server[id].date <= second[PAGE_SIZE].date.Floor as real
    requires Latest(TwoPages(second), id) != Some(server[id])
    ensures var all := run + [Read(second)] + [Complete]; Possible(w, all) && Lost(Run(w, all), id)
  {
    ReadSecond(server, newest, second);
    assert second[PAGE_SIZE] in TwoPages(second);
    LostOnCompletion(Step(HalfRead(server, newest), Read(second)), id, second[PAGE_SIZE]);
    RunAppend(w, run, Read(second));
    RunAppend(w, run + [Read(second)], Complete);
  }

  lemma OneUpdate(w: World, run: seq<Action>, server: map<string, Event>, newest: real, e: Event)
    requires Possible(w, run) && Run(w, run) == HalfRead(server, newest) && e.date > newest
    ensures Possible(w, run + [ServerPut(e)])
    ensures Run(w, run + [ServerPut(e)]) == HalfRead(server[e.id := e], e.date)
  {
    RunAppend(w, run, ServerPut(e));
  }

  const FIRST := Event(Id(0), 600.0, "new")
  const LAST := Event(Id(PAGE_SIZE), 601.0, "new")

  /** The catalogue listed after updates of its first and last event, the server keeping their places. */
  function UpdatedInPlace(): (l: seq<Event>)
    ensures |l| == PAGE_SIZE + 1 && l[PAGE_SIZE] == LAST
  {
    Catalogue()[0 := FIRST][PAGE_SIZE := LAST]
  }

  /** The catalogue listed after an update of its first event, which the server moves to the end. */
  function MovedToEnd(): (l: seq<Event>)
    ensures |l| == PAGE_SIZE + 1 && l[PAGE_SIZE] == FIRST
  {
    Catalogue()[1..] + [FIRST]
  }

  lemma InPlaceFacts()
    ensures var server := Fresh().server[FIRST.id := FIRST][LAST.id := LAST];
      Lists(UpdatedInPlace(), server, None) && Lookup(server, Id(0)) == Some(FIRST)
    ensures Latest(TwoPages(UpdatedInPlace()), Id(0)) == Some(Numbered(0))
  {
    FreshFacts();
    CatalogueIds(PAGE_SIZE, 0);
    var first, init := Catalogue(), Catalogue()[..PAGE_SIZE];
    PutInPlace(first, Fresh().server, 0, FIRST);
    PutInPlace(first[0 := FIRST], Fresh().server[FIRST.id := FIRST], PAGE_SIZE, LAST);
    assert init[0] == Numbered(0);
    LatestOfDistinct(init, Numbered(0));
    LatestAppend(init, LAST, Id(0));
  }

  lemma MovedFacts()
    ensures var server := Fresh().server[FIRST.id := FIRST];
      Lists(MovedToEnd(), server, None) && Lookup(server, Id(PAGE_SIZE)) == Some(Numbered(PAGE_SIZE))
    ensures Latest(TwoPages(MovedToEnd()), Id(PAGE_SIZE)) == None
  {
    FreshFacts();
    CatalogueIds(PAGE_SIZE, 0);
    PutAtEnd(Catalogue(), Fresh().server, FIRST);
    var rows := TwoPages(MovedToEnd());
    forall i | 0 <= i < |rows|
      ensures rows[i].id != Id(PAGE_SIZE)
    {
      if i < PAGE_SIZE {
        assert rows[i] == Numbered(i);
        CatalogueIds(i, PAGE_SIZE);
      }
    }
    LatestIsARow(rows, Id(PAGE_SIZE));
  }

  /** Two updates between two page requests: the fetch has read the old version of one event and reads
      the new, later version of another.  The first one's new version is then lost. */
  lemma StaleVersionIsLost()
    ensures var run := [Start(false), Read(Catalogue())] + [ServerPut(FIRST)] + [ServerPut(LAST)]
                       + [Read(UpdatedInPlace())] + [Complete];
      Inv(Fresh()) && Possible(Fresh(), run) && Lost(Run(Fresh(), run), Id(0))
  {
    FreshFacts();
    FirstPage();
    InPlaceFacts();
    var server, start := Fresh().server, [Start(false), Read(Catalogue())];
    OneUpdate(Fresh(), start, server, 500.0, FIRST);
    OneUpdate(Fresh(), start + [ServerPut(FIRST)], server[FIRST.id := FIRST], 600.0, LAST);
    SecondPage(Fresh(), start + [ServerPut(FIRST)] + [ServerPut(LAST)],
               server[FIRST.id := FIRST][LAST.id := LAST], 601.0, UpdatedInPlace(), Id(0));
  }

  /** One update that moves an event to the end of the listing: the event that slides onto the page
      already read is lost. */
  lemma MovingUpdateLosesAnEvent()
    ensures var run := [Start(false), Read(Catalogue())] + [ServerPut(FIRST)] + [Read(MovedToEnd())] + [Complete];
      Inv(Fresh()) && Possible(Fresh(), run) && Lost(Run(Fresh(), run), Id(PAGE_SIZE))
  {
    FreshFacts();
    FirstPage();
    MovedFacts();
    var server, start := Fresh().server, [Start(false), Read(Catalogue())];
    OneUpdate(Fresh(), start, server, 500.0, FIRST);
    SecondPage(Fresh(), start + [ServerPut(FIRST)], server[FIRST.id := FIRST], 600.0, MovedToEnd(), Id(PAGE_SIZE));
  }

  /** After either of them no incremental sync ever again leaves the table of a full re-sync, unless the
      server updates the lost event once more. */
  lemma DisturbedSyncsNeverRecover(run: seq<Action>, id: string, more: seq<Action>)
    requires Possible(Fresh(), run) && Lost(Run(Fresh(), run), id)
    requires Possible(Run(Fresh(), run), more) && forall a :: a in more ==> Incremental(a, id)
    ensures var end := Run(Run(Fresh(), run), more); end.local.table != FullResync(end.server)
  {
    FreshFacts();
    RunKeepsSane(Fresh(), run);
    LostForGood(Run(Fresh(), run), more, id);
  }

  /** The dates must rise: an event stored under the watermark's own whole second is never fetched. */
  lemma RepeatedDateIsLost(a: string, b: string)
    requires a != b && a != "" && b != ""
    ensures var first, second := Event(a, 100.0, ""), Event(b, 100.0, "");
      var w := World(map[a := first, b := second], 100.0, Local(map[a := first], Some(100.0), None));
      Sane(w) && Lost(w, b)
  {}

  // ---------- Fetches that go right ----------

  /** The platform's own steps in a run. */
  function Own(run: seq<Action>): seq<Action> {
    if run == [] then []
    else Own(run[..|run| - 1]) + if run[|run| - 1].ServerPut? then [] else [run[|run| - 1]]
  }

  function LocalRun(l: Local, steps: seq<Action>): Local {
    if steps == [] then l else LocalStep(LocalRun(l, steps[..|steps| - 1]), steps[|steps| - 1])
  }

  lemma LocalRunAppend(l: Local, steps: seq<Action>, a: Action)
    ensures LocalRun(l, steps + [a]) == LocalStep(LocalRun(l, steps), a)
  {
    assert (steps + [a])[..|steps + [a]| - 1] == steps;
  }

  /** What the platform ends up holding depends on its own steps only. */
  lemma {:induction false} RunIsLocal(w: World, run: seq<Action>)
    ensures Run(w, run).local == LocalRun(w.local, Own(run))
  {
    if run != [] {
      var init, a := run[..|run| - 1], run[|run| - 1];
      RunIsLocal(w, init);
      if a.ServerPut? {
        assert Own(run) == Own(init);
      } else {
        LocalRunAppend(w.local, Own(init), a);
      }
    }
  }

  function Reads(listing: Listings, k: nat): seq<Action> {
    if k == 0 then [] else Reads(listing, k - 1) + [Read(listing(k - 1))]
  }

  /** A sync whose fetch reads `pages` pages and then comes to its outcome. */
  function SyncSteps(full: bool, listing: Listings, pages: nat, outcome: Action): seq<Action> {
    [Start(full)] + Reads(listing, pages) + [outcome]
  }

  /** The platform after the first k pages of a sync. */
  function AfterPages(l: Local, full: bool, listing: Listings, k: nat): Local {
    l.(fetch := Some(Fetch(Since(l, full), k, Collected(listing, k),
                           k > 0 && |Page(listing(k - 1), k - 1)| < PAGE_SIZE)))
  }

  lemma OneMorePage(l: Local, full: bool, listing: Listings, k: nat)
    ensures LocalStep(AfterPages(l, full, listing, k), Read(listing(k))) == AfterPages(l, full, listing, k + 1)
  {}

  lemma OneMoreRead(l: Local, full: bool, listing: Listings, k: nat, before: Local, after: Local)
    requires LocalRun(l, [Start(full)] + Reads(listing, k)) == before
    requires LocalStep(before, Read(listing(k))) == after
    ensures LocalRun(l, [Start(full)] + Reads(listing, k + 1)) == after
  {
    var steps, read := [Start(full)] + Reads(listing, k), Read(listing(k));
    LocalRunAppend(l, steps, read);
    assert [Start(full)] + Reads(listing, k + 1) == steps + [read];
  }

  lemma {:induction false} AfterReads(l: Local, full: bool, listing: Listings, k: nat)
    ensures LocalRun(l, [Start(full)] + Reads(listing, k)) == AfterPages(l, full, listing, k)
  {
    if k > 0 {
      AfterReads(l, full, listing, k - 1);
      OneMorePage(l, full, listing, k - 1);
      OneMoreRead(l, full, listing, k - 1, AfterPages(l, full, listing, k - 1), AfterPages(l, full, listing, k));
    } else {
      LocalRunAppend(l, [], Start(full));
      assert [Start(full)] + Reads(listing, 0) == [] + [Start(full)];
    }
  }

  lemma LocalSync(l: Local, full: bool, listing: Listings, pages: nat, outcome: Action)
    ensures LocalRun(l, SyncSteps(full, listing, pages, outcome)) ==
            LocalStep(AfterPages(l, full, listing, pages), outcome)
  {
    AfterReads(l, full, listing, pages);
    LocalRunAppend(l, [Start(full)] + Reads(listing, pages), outcome);
  }

  /** A complete listing read last leaves every event current. */
  lemma ListingIsCurrent(w: World)
    requires Sane(w) && w.local.fetch.Some?
    requires Lists(w.local.fetch.value.rows, w.server, w.local.fetch.value.since)
    ensures AllCurrent(w)
  {
    var f := w.local.fetch.value;
    forall id | id in w.server && id != ""
      ensures Current(w, id)
    {
      if After(w.server[id], f.since) {
        LatestOfDistinct(f.rows, w.server[id]);
      } else {
        OldIsCurrent(w, id);
      }
    }
  }

  /** Storing the rows of a complete listing makes the table what a full re-sync would give. */
  lemma StoringCatchesUp(w: World)
    requires Inv(w) && w.local.fetch.Some?
    requires Lists(w.local.fetch.value.rows, w.server, w.local.fetch.value.since)
    ensures Committed(w.local) == FullResync(w.server)
  {
    ListingIsCurrent(w);
    CatchesUp(w);
  }

  /** The rows of a complete unfiltered listing repair any table, whatever it had lost. */
  lemma FullListingIsEnough(w: World)
    requires Sane(w) && w.local.fetch.Some? && w.local.fetch.value.since.None?
    requires Lists(w.local.fetch.value.rows, w.server, None)
    ensures Committed(w.local) == FullResync(w.server)
  {
    var rows, t := w.local.fetch.value.rows, Committed(w.local);
    CommittedKeys(w);
    forall id | id in w.server && id != ""
      ensures id in t && t[id] == w.server[id]
    {
      assert After(w.server[id], None) && w.server[id] in rows;
      CommittedLookup(w.local, id);
      LatestOfDistinct(rows, w.server[id]);
    }
    assert t.Keys == FullResync(w.server).Keys;
  }

  lemma FullTableIsCovered(w: World)
    requires w.local.table == FullResync(w.server)
    ensures Covered(w)
  {
    forall id | id in w.server && id != ""
      ensures Lookup(w.local.table, id) == Some(w.server[id])
    {
      assert id in FullResync(w.server);
    }
  }

  /** From any stored state, covered or not, a complete incremental listing gives the table of a full
      re-sync exactly when every event its filter skips is already stored as the server has it. */
  lemma IncrementalSyncIsExact(server: map<string, Event>, l: Local)
    requires Keyed(server) && l.table.Keys <= server.Keys - {""}
    requires l.fetch.Some? && Lists(l.fetch.value.rows, server, l.watermark)
    ensures Committed(l) == FullResync(server) <==>
      forall id :: id in server && id != "" && !After(server[id], l.watermark)
        ==> Lookup(l.table, id) == Some(server[id])
  {
    var t, r := Committed(l), FullResync(server);
    if t == r {
      forall id | id in server && id != "" && !After(server[id], l.watermark)
        ensures Lookup(l.table, id) == Some(server[id])
      {
        ListedLookup(server, l, id);
        assert Lookup(r, id) == Some(server[id]);
      }
    }
    if forall id :: id in server && id != "" && !After(server[id], l.watermark)
                    ==> Lookup(l.table, id) == Some(server[id]) {
      forall id
        ensures Lookup(t, id) == Lookup(r, id)
      {
        ListedLookup(server, l, id);
      }
      SameMaps(t, r);
    }
  }

  lemma ListedLookup(server: map<string, Event>, l: Local, id: string)
    requires Keyed(server) && l.table.Keys <= server.Keys - {""}
    requires l.fetch.Some? && Lists(l.fetch.value.rows, server, l.watermark)
    ensures Lookup(Committed(l), id) ==
            if id in server && id != "" && After(server[id], l.watermark) then Some(server[id]) else Lookup(l.table, id)
    ensures id !in server || id == "" ==> id !in Committed(l)
  {
    var rows := l.fetch.value.rows;
    CommittedLookup(l, id);
    LatestIsARow(rows, id);
    if id in server && After(server[id], l.watermark) {
      LatestOfDistinct(rows, server[id]);
    }
    assert id in Committed(l) <==> Lookup(Committed(l), id).Some?;
    assert id in l.table <==> Lookup(l.table, id).Some?;
  }

  lemma {:induction false} ReadsAreReads(listing: Listings, k: nat)
    ensures forall a :: a in Reads(listing, k) ==> a.Read?
  {
    if k > 0 {
      ReadsAreReads(listing, k - 1);
    }
  }

  lemma {:induction false} NoCompletionIsClean(w: World, run: seq<Action>)
    requires forall a :: a in Own(run) ==> !a.Complete?
    ensures AllClean(w, run)
  {
    if run != [] {
      var init, a := run[..|run| - 1], run[|run| - 1];
      assert !a.ServerPut? ==> a in Own(run);
      NoCompletionIsClean(w, init);
    }
  }

  /** The last two steps of the run are the fetch's last page request and the completion. */
  ghost predicate EndsQuietly(run: seq<Action>) {
    |run| >= 2 && run[|run| - 1] == Complete && run[|run| - 2].Read?
  }

  lemma OwnEnd(run: seq<Action>, full: bool, listing: Listings, last: nat)
    requires EndsQuietly(run) && Own(run) == SyncSteps(full, listing, last + 1, Complete)
    ensures Own(run[..|run| - 1]) == [Start(full)] + Reads(listing, last + 1)
    ensures Own(run[..|run| - 2]) == [Start(full)] + Reads(listing, last)
    ensures run[|run| - 2] == Read(listing(last))
  {
    var half := run[..|run| - 1];
    assert half[..|half| - 1] == run[..|run| - 2];
    SameEnd(Own(half), Complete, [Start(full)] + Reads(listing, last + 1), Complete);
    assert [Start(full)] + Reads(listing, last + 1) == [Start(full)] + Reads(listing, last) + [Read(listing(last))];
    SameEnd(Own(run[..|run| - 2]), run[|run| - 2], [Start(full)] + Reads(listing, last), Read(listing(last)));
  }

  lemma SameEnd<T>(a: seq<T>, x: T, b: seq<T>, y: T)
    requires a + [x] == b + [y]
    ensures a == b && x == y
  {
    assert a == (a + [x])[..|a + [x]| - 1] && b == (b + [y])[..|b + [y]| - 1];
    assert (a + [x])[|a + [x]| - 1] == x && (b + [y])[|b + [y]| - 1] == y;
  }

  /** Where the platform and the invariant stand just before an undisturbed sync completes. */
  lemma BeforeCompletion(w: World, run: seq<Action>, full: bool, listing: Listings, last: nat)
    requires Sane(w) && Possible(w, run) && EndsQuietly(run)
    requires Own(run) == SyncSteps(full, listing, last + 1, Complete)
    ensures var v := Run(w, run[..|run| - 1]);
      Sane(v) && (Covered(w) ==> Covered(v)) && v.local == AfterPages(w.local, full, listing, last + 1)
  {
    var half := run[..|run| - 1];
    OwnEnd(run, full, listing, last);
    RunKeepsSane(w, half);
    if Covered(w) {
      ReadingKeepsInv(w, half, full, listing, last + 1);
    }
    RunIsLocal(w, half);
    AfterReads(w.local, full, listing, last + 1);
  }

  lemma ReadingKeepsInv(w: World, run: seq<Action>, full: bool, listing: Listings, pages: nat)
    requires Inv(w) && Possible(w, run) && Own(run) == [Start(full)] + Reads(listing, pages)
    ensures Inv(Run(w, run))
  {
    ReadsAreReads(listing, pages);
    NoCompletionIsClean(w, run);
    RunKeepsInv(w, run);
  }

  /** The last page was cut from what the server still lists. */
  lemma LastPageIsListed(w: World, run: seq<Action>, full: bool, listing: Listings, last: nat)
    requires Possible(w, run) && EndsQuietly(run)
    requires Own(run) == SyncSteps(full, listing, last + 1, Complete)
    ensures Lists(listing(last), Run(w, run[..|run| - 1]).server, Since(w.local, full))
  {
    var half, init := run[..|run| - 1], run[..|run| - 2];
    assert half[..|half| - 1] == init && half[|half| - 1] == run[|run| - 2];
    OwnEnd(run, full, listing, last);
    LastStep(w, run);
    LastStep(w, half);
    RunIsLocal(w, init);
    AfterReads(w.local, full, listing, last);
    assert Run(w, init).local == AfterPages(w.local, full, listing, last);
  }

  lemma LastStep(w: World, run: seq<Action>)
    requires run != [] && Possible(w, run)
    ensures var init, a := run[..|run| - 1], run[|run| - 1];
      Possible(w, init) && Enabled(Run(w, init), a) && Run(w, run) == Step(Run(w, init), a)
  {}

  /** An undisturbed sync reads pages that still read the same at its last page request, and no update comes
      after that one; updates may fall anywhere before. */
  ghost predicate Undisturbed(run: seq<Action>, full: bool, listing: Listings, last: nat) {
    && EndsQuietly(run) && Own(run) == SyncSteps(full, listing, last + 1, Complete)
    && EndsAt(listing, last) && PagesAgree(listing, last)
  }

  /** An undisturbed sync gives the table of a full re-sync: a full one from whatever is stored, one
      filtered by the stored watermark when everything up to that is stored. */
  lemma UndisturbedSyncIsComplete(w: World, run: seq<Action>, full: bool, listing: Listings, last: nat)
    requires Sane(w) && (full || Covered(w))
    requires Possible(w, run) && Undisturbed(run, full, listing, last)
    ensures Run(w, run).local.table == FullResync(Run(w, run).server)
    ensures Inv(Run(w, run))
  {
    var v := Run(w, run[..|run| - 1]);
    BeforeCompletion(w, run, full, listing, last);
    LastPageIsListed(w, run, full, listing, last);
    PagesCoverListing(listing, last);
    if full {
      FullListingIsEnough(v);
    } else {
      StoringCatchesUp(v);
    }
    StepKeepsSane(v, Complete);
    FullTableIsCovered(Step(v, Complete));
  }

  /** After any run of updates, failed fetches and crashes whose completed syncs were clean, an undisturbed
      sync brings the table to that of a full re-sync. */
  lemma SyncedAfterEveryRun(w: World, before: seq<Action>, run: seq<Action>, full: bool, listing: Listings, last: nat)
    requires Inv(w) && Possible(w, before) && AllClean(w, before)
    requires Possible(Run(w, before), run) && Undisturbed(run, full, listing, last)
    ensures var end := Run(Run(w, before), run);
      Inv(end) && end.local.table == FullResync(end.server)
  {
    RunKeepsInv(w, before);
    UndisturbedSyncIsComplete(Run(w, before), run, full, listing, last);
  }

  /** After any run at all, unclean syncs and lost events included, an undisturbed full sync does. */
  lemma FullSyncRepairs(w: World, before: seq<Action>, run: seq<Action>, listing: Listings, last: nat)
    requires Sane(w) && Possible(w, before)
    requires Possible(Run(w, before), run) && Undisturbed(run, true, listing, last)
    ensures var end := Run(Run(w, before), run);
      Inv(end) && end.local.table == FullResync(end.server)
  {
    RunKeepsSane(w, before);
    UndisturbedSyncIsComplete(Run(w, before), run, true, listing, last);
  }

  // ---------- Listings that fit on one page ----------

  /** A fetch whose first page is short has every event right, whatever is stored. */
  lemma ShortFetchIsCurrent(w: World, listing: seq<Event>)
    requires Sane(w) && Enabled(w, Read(listing)) && w.local.fetch.value.pages == 0 && |listing| < PAGE_SIZE
    ensures var v := Step(w, Read(listing));
      v.local.fetch.value.ended && AllCurrent(v) && Clean(v)
  {
    var v := Step(w, Read(listing));
    assert Page(listing, 0) == listing && [] + listing == listing;
    StepKeepsSane(w, Read(listing));
    ListingIsCurrent(v);
  }

  /** Fewer events than fill a page match the filter whenever one is asked for. */
  ghost predicate FitsOnOnePage(run: seq<Action>) {
    forall a :: a in run && a.Read? ==> |a.listing| < PAGE_SIZE
  }

  /** A fetch under way has not read yet, or has ended clean. */
  ghost predicate SoFarClean(w: World) {
    w.local.fetch.Some? ==> w.local.fetch.value.pages == 0 || (w.local.fetch.value.ended && Clean(w))
  }

  lemma StepKeepsSoFarClean(w: World, a: Action)
    requires Sane(w) && SoFarClean(w) && Enabled(w, a)
    requires a.Read? ==> |a.listing| < PAGE_SIZE
    ensures SoFarClean(Step(w, a)) && (a.Complete? ==> Clean(w))
  {
    if a.Read? {
      ShortFetchIsCurrent(w, a.listing);
    } else if a.ServerPut? && w.local.fetch.Some? && w.local.fetch.value.ended {
      LateUpdatesAreHarmless(w, a.event);
    }
  }

  /** A guard that can be checked before a sync: over runs in which every listing fits on one page all syncs
      are clean, so nothing is ever lost, wherever updates, failures and crashes fall. */
  lemma {:induction false} SmallListingsAreSafe(w: World, run: seq<Action>)
    requires Inv(w) && SoFarClean(w) && Possible(w, run) && FitsOnOnePage(run)
    ensures AllClean(w, run) && SoFarClean(Run(w, run)) && Inv(Run(w, run))
  {
    if run != [] {
      var init, a := run[..|run| - 1], run[|run| - 1];
      assert FitsOnOnePage(init) by {
        assert forall x :: x in init ==> x in run;
      }
      SmallListingsAreSafe(w, init);
      assert a in run;
      StepKeepsSoFarClean(Run(w, init), a);
      StepKeepsInv(Run(w, init), a);
    }
  }

  // ---------- The sync routine ----------

  /** The answer to the k-th page request under a filter: what the server lists at that moment, or None
      for any status but 200. */
  type Service = (Option<real>, nat) -> Option<seq<Event>>

  function Listed(service: Service, since: Option<real>): Listings {
    (k: nat) => if service(since, k).Some? then service(since, k).value else []
  }

  ghost predicate Finite(service: Service, bound: nat) {
    forall since, k :: service(since, k).Some? ==> |service(since, k).value| <= bound
  }

  /** All page requests before `last` were answered with a full page; the one for `last` failed or was
      answered with a short one. */
  ghost predicate FetchEnds(service: Service, since: Option<real>, last: nat) {
    && (forall k :: 0 <= k < last ==> service(since, k).Some?)
    && FullUpTo(Listed(service, since), last)
    && (service(since, last).Some? ==> EndsAt(Listed(service, since), last))
  }

  /** Fetches until a short page; any HTTP error abandons the whole fetch.  `bound` only says that the
      server lists finitely many events. */
  method FetchAllEvents(service: Service, since: Option<real>, ghost bound: nat)
    returns (items: Option<seq<Event>>, last: nat)
    requires Finite(service, bound)
    ensures FetchEnds(service, since, last)
    ensures items == if service(since, last).None? then None else Some(Collected(Listed(service, since), last + 1))
  {
    ghost var listing := Listed(service, since);
    var all := [];
    var k := 0;
    while true
      invariant all == Collected(listing, k) && FullUpTo(listing, k)
      invariant forall j :: 0 <= j < k ==> service(since, j).Some?
      invariant k > 0 ==> k * PAGE_SIZE <= |listing(k - 1)| <= bound
      decreases bound + PAGE_SIZE - k * PAGE_SIZE
    {
      var answer := service(since, k);
      if answer.None? {
        return None, k;
      }
      assert listing(k) == answer.value;
      var page := Page(answer.value, k);
      all := all + page;
      if |page| < PAGE_SIZE {
        return Some(all), k;
      }
      k := k + 1;
    }
  }

  datatype Status = Never | Ok | Error
  datatype Crash = NoCrash | InUpsert | BeforeWatermark

  class SyncStore {
    var table: map<string, Event>
    var watermark: Option<real>
    var status: Status
    var total: Option<nat>

    constructor ()
      ensures table == map[] && watermark == None && status == Never && total == None
    {
      table, watermark, status, total := map[], None, Never, None;
    }

    /** One transaction: all rows or, when interrupted, none. */
    method UpsertEvents(rows: seq<Event>, crash: bool) returns (ok: bool)
      modifies this`table
      ensures ok == !crash
      ensures table == if crash then old(table) else Upserted(old(table), rows)
    {
      var pending := table;
      for i := 0 to |rows|
        invariant pending == Upserted(old(table), rows[..i])
      {
        assert rows[..i + 1][..i] == rows[..i];
        pending := pending[rows[i].id := rows[i]];
      }
      assert rows[..|rows|] == rows;
      if crash {
        return false;
      }
      table := pending;
      return true;
    }

    /** Empty arguments leave the stored total and watermark alone. */
    method UpdateSyncState(s: Status, newTotal: Option<nat>, maxUpdate: Option<real>)
      modifies this`status, this`total, this`watermark
      ensures status == s
      ensures total == if newTotal.Some? then newTotal else old(total)
      ensures watermark == if maxUpdate.Some? then maxUpdate else old(watermark)
    {
      status := s;
      if newTotal.Some? {
        total := newTotal;
      }
      if maxUpdate.Some? {
        watermark := maxUpdate;
      }
    }

    /** What is stored, between syncs. */
    function Here(): Local
      reads this
    {
      Local(table, watermark, None)
    }

    /** The valid rows and their newest update date. */
    method MapRows(events: seq<Event>) returns (rows: seq<Event>, maxUpdate: Option<real>)
      ensures rows == Named(events) && maxUpdate == MaxDate(rows)
    {
      rows := [];
      for i := 0 to |events|
        invariant rows == Named(events[..i])
      {
        assert events[..i + 1][..i] == events[..i];
        if events[i].id != "" {
          rows := rows + [events[i]];
        }
      }
      assert events[..|events|] == events;
      maxUpdate := None;
      for i := 0 to |rows|
        invariant maxUpdate == MaxDate(rows[..i])
      {
        assert rows[..i + 1][..i] == rows[..i];
        if maxUpdate.None? || rows[i].date > maxUpdate.value {
          maxUpdate := Some(rows[i].date);
        }
      }
      assert rows[..|rows|] == rows;
    }

    /** Commit and watermark, up to an interruption. */
    method StoreRows(rows: seq<Event>, maxUpdate: Option<real>, crash: Crash) returns (outcome: Action)
      modifies this
      ensures outcome == if crash == NoCrash then Complete else if crash == InUpsert then Abandon else CommitOnly
      ensures table == if outcome.Abandon? then old(table) else Upserted(old(table), rows)
      ensures watermark == if outcome.Complete? && maxUpdate.Some? then maxUpdate else old(watermark)
      ensures outcome.Complete? ==> status == Ok && total == Some(|table|)
    {
      var ok := UpsertEvents(rows, crash == InUpsert);
      if !ok {
        return Abandon;
      }
      if crash == BeforeWatermark {
        return CommitOnly;
      }
      UpdateSyncState(Ok, Some(|table|), maxUpdate);
      return Complete;
    }

    /** What happens once everything is fetched. */
    method StoreEvents(events: seq<Event>, crash: Crash, ghost fetch: Fetch) returns (outcome: Action)
      requires fetch.rows == events
      modifies this
      ensures outcome == Outcome(events, crash)
      ensures Here() == LocalStep(old(Here()).(fetch := Some(fetch)), outcome)
      ensures outcome.Complete? ==> status == Ok
      ensures outcome.Complete? ==> total == if events == [] then old(total) else Some(|table|)
    {
      ghost var l := Here().(fetch := Some(fetch));
      if events == [] {
        NothingToStore(l);
        UpdateSyncState(Ok, None, None);
        return Complete;
      }
      var rows, maxUpdate := MapRows(events);
      outcome := StoreRows(rows, maxUpdate, crash);
      Outcomes(l, rows, maxUpdate);
    }

    /** One sync: the store moves as `Synced` says, and the sync state reports it. */
    method SyncService(full: bool, service: Service, ghost bound: nat, crash: Crash)
      returns (outcome: Action, last: nat)
      requires Finite(service, bound)
      modifies this
      ensures Synced(old(Here()), Here(), full, service, crash, outcome, last)
      ensures FetchFailed(old(Here()), full, service, last) ==> status == Error && total == old(total)
      ensures outcome.Complete? ==> status == Ok
      ensures outcome.Complete? ==>
        total == if Fetched(old(Here()), full, service, last) == [] then old(total) else Some(|table|)
    {
      var since := if full then None else watermark;
      ghost var before := Here();
      var fetched;
      fetched, last := FetchAllEvents(service, since, bound);
      if fetched.None? {
        GivenUp(before, full, service, crash, last);
        UpdateSyncState(Error, None, None);
        return Abandon, last;
      }
      outcome := StoreEvents(fetched.value, crash, Fetch(since, last + 1, fetched.value, true));
      Settled(before, Here(), full, service, crash, outcome, last);
    }
  }

  ghost function Pages(before: Local, full: bool, service: Service): Listings {
    Listed(service, Since(before, full))
  }

  ghost predicate FetchFailed(before: Local, full: bool, service: Service, last: nat) {
    service(Since(before, full), last).None?
  }

  ghost function Fetched(before: Local, full: bool, service: Service, last: nat): seq<Event> {
    Collected(Pages(before, full, service), last + 1)
  }

  /** What one sync does to the store.  It asks under the filter of the stored watermark, unless it is full,
      and ends its fetch at page `last`; the store then moves by exactly the steps of the run model, and an
      undisturbed sync that completes leaves the table of a full re-sync, whatever updates fell between its
      steps. */
  ghost predicate Synced(before: Local, after: Local, full: bool, service: Service, crash: Crash, outcome: Action,
                         last: nat) {
    var listing := Pages(before, full, service);
    && FetchEnds(service, Since(before, full), last)
    && if FetchFailed(before, full, service, last) then
         outcome == Abandon && after == LocalRun(before, SyncSteps(full, listing, last, outcome))
       else
         && outcome == Outcome(Fetched(before, full, service, last), crash)
         && after == LocalRun(before, SyncSteps(full, listing, last + 1, outcome))
         && (outcome.Complete? ==> FullResyncReached(before, full, listing, last, after.table))
  }

  /** How a sync that has fetched everything ends. */
  function Outcome(events: seq<Event>, crash: Crash): Action {
    if events == [] || crash == NoCrash then Complete else if crash == InUpsert then Abandon else CommitOnly
  }

  lemma GivenUp(before: Local, full: bool, service: Service, crash: Crash, last: nat)
    requires before.fetch.None? && FetchEnds(service, Since(before, full), last)
    requires FetchFailed(before, full, service, last)
    ensures Synced(before, before, full, service, crash, Abandon, last)
  {
    LocalSync(before, full, Pages(before, full, service), last, Abandon);
  }

  lemma Settled(before: Local, after: Local, full: bool, service: Service, crash: Crash, outcome: Action, last: nat)
    requires FetchEnds(service, Since(before, full), last) && !FetchFailed(before, full, service, last)
    requires outcome == Outcome(Fetched(before, full, service, last), crash)
    requires var fetch := Fetch(Since(before, full), last + 1, Fetched(before, full, service, last), true);
      after == LocalStep(before.(fetch := Some(fetch)), outcome)
    ensures Synced(before, after, full, service, crash, outcome, last)
  {
    SettledSteps(before, after, full, Pages(before, full, service), outcome, last);
    SettledTable(before, after, full, Pages(before, full, service), outcome, last);
  }

  lemma SettledSteps(before: Local, after: Local, full: bool, listing: Listings, outcome: Action, last: nat)
    requires EndsAt(listing, last)
    requires var fetch := Fetch(Since(before, full), last + 1, Collected(listing, last + 1), true);
      after == LocalStep(before.(fetch := Some(fetch)), outcome)
    ensures after == LocalRun(before, SyncSteps(full, listing, last + 1, outcome))
  {
    EndedPages(before, full, listing, last);
    LocalSync(before, full, listing, last + 1, outcome);
  }

  lemma EndedPages(before: Local, full: bool, listing: Listings, last: nat)
    requires EndsAt(listing, last)
    ensures AfterPages(before, full, listing, last + 1) ==
            before.(fetch := Some(Fetch(Since(before, full), last + 1, Collected(listing, last + 1), true)))
  {}

  lemma SettledTable(before: Local, after: Local, full: bool, listing: Listings, outcome: Action, last: nat)
    requires EndsAt(listing, last) && after == LocalRun(before, SyncSteps(full, listing, last + 1, outcome))
    ensures outcome.Complete? ==> FullResyncReached(before, full, listing, last, after.table)
  {
    ReachedWhenUndisturbed(before, full, listing, last);
  }

  lemma NothingToStore(l: Local)
    requires l.fetch.Some? && l.fetch.value.rows == []
    ensures LocalStep(l, Complete) == Local(l.table, l.watermark, None)
  {}

  lemma Outcomes(l: Local, rows: seq<Event>, maxUpdate: Option<real>)
    requires l.fetch.Some? && rows == Named(l.fetch.value.rows) && maxUpdate == MaxDate(rows)
    ensures LocalStep(l, Abandon) == Local(l.table, l.watermark, None)
    ensures LocalStep(l, CommitOnly) == Local(Upserted(l.table, rows), l.watermark, None)
    ensures LocalStep(l, Complete) ==
            Local(Upserted(l.table, rows), if maxUpdate.Some? then maxUpdate else l.watermark, None)
  {
    assert Committed(l) == Upserted(l.table, rows);
    assert NewWatermark(l) == if maxUpdate.Some? then maxUpdate else l.watermark;
  }

  /** In every world the sync can have run in, whose run was undisturbed, the table it left is that of a
      full re-sync. */
  ghost predicate FullResyncReached(before: Local, full: bool, listing: Listings, last: nat,
                                    table: map<string, Event>) {
    forall w: World, run: seq<Action> | && w.local == before && Sane(w) && (full || Covered(w))
                                        && Possible(w, run) && Undisturbed(run, full, listing, last) ::
      table == FullResync(Run(w, run).server)
  }

  lemma ReachedWhenUndisturbed(before: Local, full: bool, listing: Listings, last: nat)
    requires EndsAt(listing, last)
    ensures FullResyncReached(before, full, listing, last,
                              LocalRun(before, SyncSteps(full, listing, last + 1, Complete)).table)
  {
    forall w: World, run: seq<Action> | && w.local == before && Sane(w) && (full || Covered(w))
                                        && Possible(w, run) && Undisturbed(run, full, listing, last)
      ensures LocalRun(before, SyncSteps(full, listing, last + 1, Complete)).table == FullResync(Run(w, run).server)
    {
      UndisturbedSyncIsComplete(w, run, full, listing, last);
      RunIsLocal(w, run);
    }
  }
}
