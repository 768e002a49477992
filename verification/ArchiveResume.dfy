/** The resumable archive download: weekly thinning, idempotent inserts, and the progress file, judged
    over any number of runs that may be cut off anywhere. */
module ArchiveResume {
  import opened Prelude

  /** One gp_history record.  `week` is the ISO year and week of its epoch, None when the epoch does not
      parse; `numeric` tells whether its numbers convert. */
  datatype Record = Record(norad: string, epoch: int, week: Option<(int, int)>, l1: string, l2: string, numeric: bool)

  type RowKey = (string, int)
  type Table = map<RowKey, (string, string)>

  // ---------- Thinning ----------

  predicate Usable(r: Record) {
    r.l1 != "" && r.l2 != "" && r.week.Some?
  }

  /** A record without either element line or a readable epoch is passed over, and no other. */
  lemma PassedOverExactly(r: Record)
    ensures !Usable(r) <==> |r.l1| == 0 || |r.l2| == 0 || r.week.None?
  {}

  function WeekKey(r: Record): (string, (int, int))
    requires Usable(r)
  {
    (r.norad, r.week.value)
  }

  predicate SameWeek(a: Record, b: Record) {
    Usable(a) && Usable(b) && WeekKey(a) == WeekKey(b)
  }

  /** The records the thinning keeps, in order of appearance. */
  function Kept(recs: seq<Record>): seq<Record> {
    if recs == [] then []
    else
      var k, r := Kept(recs[..|recs| - 1]), recs[|recs| - 1];
      if Usable(r) && !(exists a :: a in k && SameWeek(a, r)) then k + [r] else k
  }

  function Numeric(recs: seq<Record>): seq<Record> {
    if recs == [] then []
    else Numeric(recs[..|recs| - 1]) + if recs[|recs| - 1].numeric then [recs[|recs| - 1]] else []
  }

  /** The rows a group contributes: a kept record whose numbers do not convert is dropped, not replaced. */
  function Thinned(recs: seq<Record>): seq<Record> {
    Numeric(Kept(recs))
  }

  /** recs[i] is the first usable record of its object and week. */
  ghost predicate IsFirst(recs: seq<Record>, i: nat)
    requires i < |recs|
  {
    Usable(recs[i]) && forall j :: 0 <= j < i ==> !SameWeek(recs[j], recs[i])
  }

  lemma {:induction false} KeptCovers(recs: seq<Record>, i: nat) returns (r: Record)
    requires i < |recs| && Usable(recs[i])
    ensures r in Kept(recs) && SameWeek(r, recs[i])
  {
    var init, last := recs[..|recs| - 1], recs[|recs| - 1];
    if i < |init| {
      r := KeptCovers(init, i);
    } else if a :| a in Kept(init) && SameWeek(a, last) {
      r := a;
    } else {
      r := last;
      assert Kept(recs) == Kept(init) + [last];
    }
  }

  lemma {:induction false} KeptIsFirst(recs: seq<Record>, r: Record) returns (i: nat)
    requires r in Kept(recs)
    ensures i < |recs| && recs[i] == r && IsFirst(recs, i)
  {
    var init, last := recs[..|recs| - 1], recs[|recs| - 1];
    if r in Kept(init) {
      i := KeptIsFirst(init, r);
      assert forall j :: 0 <= j <= i ==> init[j] == recs[j];
    } else {
      i := |recs| - 1;
      forall j | 0 <= j < i
        ensures !SameWeek(recs[j], recs[i])
      {
        if SameWeek(init[j], last) {
          var a := KeptCovers(init, j);
          assert SameWeek(a, last);
        }
      }
    }
  }

  lemma {:induction false} FirstIsKept(recs: seq<Record>, i: nat)
    requires i < |recs| && IsFirst(recs, i)
    ensures recs[i] in Kept(recs)
  {
    var init := recs[..|recs| - 1];
    if i < |init| {
      assert forall j :: 0 <= j <= i ==> init[j] == recs[j];
      FirstIsKept(init, i);
    } else if a :| a in Kept(init) && SameWeek(a, recs[i]) {
      var k := KeptIsFirst(init, a);
      assert false;
    } else {
      assert Kept(recs) == Kept(init) + [recs[i]];
    }
  }

  /** Exactly the first record of each object and ISO week is kept, and each week once. */
  lemma {:induction false} KeptExactlyFirsts(recs: seq<Record>)
    ensures forall r :: r in Kept(recs) <==> exists i :: 0 <= i < |recs| && recs[i] == r && IsFirst(recs, i)
    ensures forall i, j :: 0 <= i < j < |Kept(recs)| ==> !SameWeek(Kept(recs)[i], Kept(recs)[j])
  {
    forall r
      ensures r in Kept(recs) <==> exists i :: 0 <= i < |recs| && recs[i] == r && IsFirst(recs, i)
    {
      if r in Kept(recs) {
        var i := KeptIsFirst(recs, r);
      }
      if i :| 0 <= i < |recs| && recs[i] == r && IsFirst(recs, i) {
        FirstIsKept(recs, i);
      }
    }
    if recs != [] {
      KeptExactlyFirsts(recs[..|recs| - 1]);
    }
  }

  /** The thinning loop: a dictionary from object and week to the record seen first. */
  method Thin(recs: seq<Record>) returns (rows: seq<Record>)
    ensures rows == Thinned(recs)
  {
    var keep: map<(string, (int, int)), Record>, order: seq<Record> := map[], [];
    for i := 0 to |recs|
      invariant order == Kept(recs[..i])
      invariant forall r :: r in order ==> Usable(r)
      invariant forall k :: k in keep <==> exists r :: r in order && Usable(r) && WeekKey(r) == k
    {
      assert recs[..i + 1][..i] == recs[..i];
      var r := recs[i];
      if Usable(r) {
        assert WeekKey(r) in keep <==> exists a :: a in order && SameWeek(a, r);
        if WeekKey(r) !in keep {
          keep := keep[WeekKey(r) := r];
          order := order + [r];
        }
      }
    }
    assert recs[..|recs|] == recs;
    rows := [];
    for i := 0 to |order|
      invariant rows == Numeric(order[..i])
    {
      assert order[..i + 1][..i] == order[..i];
      if order[i].numeric {
        rows := rows + [order[i]];
      }
    }
    assert order[..|order|] == order;
  }

  // ---------- Idempotent inserts ----------

  function KeyOf(r: Record): RowKey {
    (r.norad, r.epoch)
  }

  /** INSERT ... ON CONFLICT (norad, epoch) DO NOTHING, row by row. */
  function Inserted(t: Table, rows: seq<Record>): Table {
    if rows == [] then t
    else
      var u, r := Inserted(t, rows[..|rows| - 1]), rows[|rows| - 1];
      if KeyOf(r) in u then u else u[KeyOf(r) := (r.l1, r.l2)]
  }

  ghost predicate Holds(t: Table, rows: seq<Record>) {
    forall r :: r in rows ==> KeyOf(r) in t
  }

  ghost predicate Extends(t: Table, u: Table) {
    forall k :: k in t ==> k in u && u[k] == t[k]
  }

  lemma {:induction false} InsertedHolds(t: Table, rows: seq<Record>)
    ensures Extends(t, Inserted(t, rows)) && Holds(Inserted(t, rows), rows)
  {
    if rows != [] {
      InsertedHolds(t, rows[..|rows| - 1]);
      assert rows == rows[..|rows| - 1] + [rows[|rows| - 1]];
    }
  }

  lemma {:induction false} NothingNewToInsert(t: Table, rows: seq<Record>)
    requires Holds(t, rows)
    ensures Inserted(t, rows) == t
  {
    if rows != [] {
      assert rows == rows[..|rows| - 1] + [rows[|rows| - 1]];
      NothingNewToInsert(t, rows[..|rows| - 1]);
    }
  }

  /** Running a task again, at any later point, inserts nothing and changes no stored row. */
  lemma RerunChangesNothing(t: Table, recs: seq<Record>, later: Table)
    requires Extends(Inserted(t, Thinned(recs)), later)
    ensures Inserted(later, Thinned(recs)) == later
  {
    InsertedHolds(t, Thinned(recs));
    NothingNewToInsert(later, Thinned(recs));
  }

  // ---------- Runs, crashes and the progress file ----------

  datatype Task = Task(year: int, group: nat)

  /** A fetch that succeeded, in the order of the whole history. */
  datatype Fetch = Fetch(run: nat, task: Task, recs: seq<Record>)

  /** Every thinned row of some fetch of `t` is committed. */
  ghost predicate Stored(t: Task, log: seq<Fetch>, table: Table) {
    exists f :: f in log && f.task == t && Holds(table, Thinned(f.recs))
  }

  /** Two empty groups of the same year, fetched in one run with nothing but empty groups between
      them, precede `t`. */
  ghost predicate Skipped(t: Task, log: seq<Fetch>) {
    exists a, b :: 0 <= a < b < |log| && log[b].task.group < t.group && EmptyRun(log, a, b, t.year)
  }

  ghost predicate EmptyRun(log: seq<Fetch>, a: nat, b: nat, year: int)
    requires a <= b < |log|
  {
    && log[a].task.group <= log[b].task.group
    && forall i :: a <= i <= b ==> log[i].run == log[a].run && log[i].task.year == year && log[i].recs == []
  }

  ghost predicate Accounted(tasks: set<Task>, log: seq<Fetch>, table: Table) {
    forall t :: t in tasks ==> Stored(t, log, table) || Skipped(t, log)
  }

  lemma AccountedGrows(tasks: set<Task>, log: seq<Fetch>, table: Table, log': seq<Fetch>, table': Table)
    requires Accounted(tasks, log, table) && log <= log' && Extends(table, table')
    ensures Accounted(tasks, log', table')
  {
    forall t | t in tasks
      ensures Stored(t, log', table') || Skipped(t, log')
    {
      if Stored(t, log, table) {
        var f :| f in log && f.task == t && Holds(table, Thinned(f.recs));
        assert f in log' && Holds(table', Thinned(f.recs));
      } else {
        var a, b :| 0 <= a < b < |log| && log[b].task.group < t.group && EmptyRun(log, a, b, t.year);
        assert EmptyRun(log', a, b, t.year);
      }
    }
  }

  /** What the server answers to the first attempt and to the retry of each task. */
  type Answers = Task -> (Option<seq<Record>>, Option<seq<Record>>)

  /** The first attempt's answer, or after an error the retry's. */
  function Answer(answers: Answers, t: Task): Option<seq<Record>> {
    if answers(t).0.Some? then answers(t).0 else answers(t).1
  }

  /** What one run adds to the log from position `from` on. */
  ghost predicate LogFits(log: seq<Fetch>, from: nat, run: nat, answers: Answers, before: set<Task>) {
    forall i :: from <= i < |log| ==>
      log[i].run == run && log[i].task !in before && Answer(answers, log[i].task) == Some(log[i].recs)
  }

  /** Within a year: groups below gi were fetched, and the last `empty` fetches, from `first` on, were empty. */
  ghost predicate YearLog(log: seq<Fetch>, from: nat, year: int, gi: nat, first: nat, empty: nat) {
    && (forall i :: from <= i < |log| ==> log[i].task.year == year && log[i].task.group < gi)
    && (empty > 0 ==> from <= first && first + empty == |log| && EmptyRun(log, first, |log| - 1, year))
  }

  lemma YearLogGrows(log: seq<Fetch>, from: nat, year: int, gi: nat, first: nat, empty: nat,
                     f: Fetch, answers: Answers, before: set<Task>)
    requires from <= |log| && YearLog(log, from, year, gi, first, empty)
    requires LogFits(log, from, f.run, answers, before)
    requires f.task == Task(year, gi) && f.task !in before && Answer(answers, f.task) == Some(f.recs)
    ensures LogFits(log + [f], from, f.run, answers, before)
    ensures YearLog(log + [f], from, year, gi + 1, if empty > 0 then first else |log|,
                    if f.recs == [] then empty + 1 else 0)
  {}

  /** The durable state: the table and the progress file (None: missing or unreadable). */
  class Archive {
    var table: Table
    var saved: Option<set<Task>>
    ghost var log: seq<Fetch>
    ghost var runs: nat

    function Progress(): set<Task>
      reads this
    {
      if saved.Some? then saved.value else {}
    }

    ghost predicate Safe()
      reads this
    {
      Accounted(Progress(), log, table)
    }

    /** Every fetch belongs to one of the runs so far. */
    ghost predicate Numbered()
      reads this
    {
      forall i :: 0 <= i < |log| ==> log[i].run < runs
    }

    constructor ()
      ensures Safe() && Numbered() && log == [] && table == map[] && saved == None
    {
      table, saved, log, runs := map[], None, [], 0;
    }

    /** Rewrites the progress file.  Opening it empties it, so a crash in between leaves nothing readable. */
    method SaveProgress(done: set<Task>, crash: bool) returns (ok: bool)
      modifies this`saved
      ensures ok == !crash
      ensures saved == if crash then None else Some(done)
    {
      saved := None;
      if crash {
        return false;
      }
      saved := Some(done);
      return true;
    }

    /** One run, cut off at the `budget`-th crash point.  In every state it can leave behind each
        task of the progress file is accounted for; stored rows never change; tasks already in the
        file are not fetched again; and a run that finishes has every task that could be fetched. */
    method Run(years: seq<int>, groups: nat, answers: Answers, budget: nat) returns (finished: bool)
      requires Safe() && Numbered()
      requires forall i, j :: 0 <= i < j < |years| ==> years[i] != years[j]
      modifies this
      ensures Safe() && Numbered() && runs == old(runs) + 1
      ensures Extends(old(table), table) && old(log) <= log
      ensures forall i :: |old(log)| <= i < |log| ==>
        log[i].run == old(runs) && log[i].task !in old(Progress()) && Answer(answers, log[i].task) == Some(log[i].recs)
      ensures finished ==> forall y, g :: y in years && 0 <= g < groups ==>
        Task(y, g) in Progress() || Answer(answers, Task(y, g)).None?
    {
      ghost var run := runs;
      runs := runs + 1;
      var left := budget;
      var done := Progress();
      for yi := 0 to |years|
        invariant Progress() == done && Safe() && runs == run + 1
        invariant Extends(old(table), table) && old(log) <= log && old(Progress()) <= done
        invariant LogFits(log, |old(log)|, run, answers, old(Progress()))
        invariant forall i, g | 0 <= i < yi && 0 <= g < groups ::
          Task(years[i], g) in done || Answer(answers, Task(years[i], g)).None?
      {
        var ok;
        ok, left, done := Year(run, years[yi], groups, answers, left, done);
        if !ok {
          return false;
        }
      }
      return true;
    }

    /** Commits the rows of one fetched group and enters its task in the progress file. */
    method Store(ghost run: nat, task: Task, recs: seq<Record>, budget: nat, done0: set<Task>)
      returns (ok: bool, left: nat, done: set<Task>)
      requires Progress() == done0 && Safe()
      modifies this`table, this`saved, this`log
      ensures Safe() && Extends(old(table), table) && log == old(log) + [Fetch(run, task, recs)]
      ensures ok ==> done == done0 + {task} && Progress() == done
    {
      left, done := budget, done0;
      log := log + [Fetch(run, task, recs)];
      AccountedGrows(done, old(log), table, log, table);
      var rows := Thin(recs);
      if left == 0 {
        return false, 0, done;
      }
      left := left - 1;
      table := Inserted(table, rows);
      InsertedHolds(old(table), rows);
      AccountedGrows(done, old(log), old(table), log, table);
      if left == 0 {
        return false, 0, done;
      }
      left := left - 1;
      assert log[|log| - 1] in log && log[|log| - 1].task == task;
      done := done + {task};
      if left == 0 {
        ok := SaveProgress(done, true);
        return;
      }
      left := left - 1;
      ok := SaveProgress(done, false);
    }

    /** What holds between the groups of a year; `from` and `done0` are the log position and the
        progress at its start. */
    ghost predicate Between(run: nat, year: int, gi: nat, answers: Answers, done0: set<Task>, from: nat,
                            done: set<Task>, empty: nat, first: nat)
      reads this
    {
      && Progress() == done && Safe() && done0 <= done && from <= |log|
      && LogFits(log, from, run, answers, done0)
      && YearLog(log, from, year, gi, first, empty)
      && forall g :: 0 <= g < gi ==> Task(year, g) in done || Answer(answers, Task(year, g)).None?
    }

    /** After two empty groups in a row the later groups of the year are marked done unfetched. */
    method SkipRest(ghost run: nat, year: int, gi: nat, groups: nat, answers: Answers, ghost done0: set<Task>,
                    ghost from: nat, before: set<Task>, ghost empty: nat, ghost first: nat, crash: bool)
      returns (ok: bool, done: set<Task>)
      requires Between(run, year, gi, answers, done0, from, before, empty, first) && 2 <= empty
      modifies this`saved
      ensures Safe() && ok == !crash
      ensures ok ==> Progress() == done && done0 <= done
      ensures forall g :: 0 <= g < groups ==> Task(year, g) in done || Answer(answers, Task(year, g)).None?
    {
      var rest := set g | gi <= g < groups :: Task(year, g);
      forall t | t in rest
        ensures Skipped(t, log)
      {
        assert EmptyRun(log, first, |log| - 1, t.year);
      }
      done := before + rest;
      ok := SaveProgress(done, crash);
    }

    lemma BetweenAdvances(run: nat, year: int, gi: nat, answers: Answers, done0: set<Task>, from: nat,
                          done: set<Task>, empty: nat, first: nat)
      requires Between(run, year, gi, answers, done0, from, done, empty, first)
      requires Task(year, gi) in done || Answer(answers, Task(year, gi)).None?
      ensures Between(run, year, gi + 1, answers, done0, from, done, empty, first)
    {
      assert YearLog(log, from, year, gi + 1, first, empty);
    }

    /** One group that is neither done nor skipped. */
    method OneGroup(ghost run: nat, year: int, gi: nat, answers: Answers, ghost done0: set<Task>, ghost from: nat,
                    budget: nat, before: set<Task>, empty0: nat, ghost first0: nat)
      returns (ok: bool, left: nat, done: set<Task>, empty: nat, ghost first: nat)
      requires Between(run, year, gi, answers, done0, from, before, empty0, first0) && Task(year, gi) !in before
      modifies this`table, this`saved, this`log
      ensures Safe() && Extends(old(table), table) && old(log) <= log && LogFits(log, from, run, answers, done0)
      ensures ok ==> Between(run, year, gi + 1, answers, done0, from, done, empty, first)
    {
      ok, left, done, empty, first := true, budget, before, empty0, first0;
      var recs := answers(Task(year, gi)).0;
      if recs.None? {
        recs := answers(Task(year, gi)).1;
      }
      if recs.None? {
        BetweenAdvances(run, year, gi, answers, done0, from, done, empty, first);
        return;
      }
      ghost var f := Fetch(run, Task(year, gi), recs.value);
      YearLogGrows(log, from, year, gi, first, empty, f, answers, done0);
      first := if empty > 0 then first else |log|;
      ok, left, done := Store(run, Task(year, gi), recs.value, left, done);
      empty := if recs.value == [] then empty + 1 else 0;
    }

    /** The groups of one year. */
    method Year(ghost run: nat, year: int, groups: nat, answers: Answers, budget: nat, done0: set<Task>)
      returns (ok: bool, left: nat, done: set<Task>)
      requires Progress() == done0 && Safe()
      modifies this`table, this`saved, this`log
      ensures Safe() && Extends(old(table), table) && old(log) <= log
      ensures LogFits(log, |old(log)|, run, answers, done0)
      ensures ok ==> Progress() == done && done0 <= done
      ensures ok ==> forall g :: 0 <= g < groups ==> Task(year, g) in done || Answer(answers, Task(year, g)).None?
    {
      ok, left, done := true, budget, done0;
      var empty: nat := 0;
      ghost var first: nat := |log|;  // position in the log of the first of the current empty groups
      var gi: nat := 0;
      while gi < groups
        invariant 0 <= gi <= groups && ok
        invariant Between(run, year, gi, answers, done0, |old(log)|, done, empty, first)
        invariant Extends(old(table), table) && old(log) <= log
      {
        if Task(year, gi) in done {
          BetweenAdvances(run, year, gi, answers, done0, |old(log)|, done, empty, first);
        } else {
          if empty >= 2 {
            ok, done := SkipRest(run, year, gi, groups, answers, done0, |old(log)|, done, empty, first, left == 0);
            left := if left == 0 then 0 else left - 1;
            return;
          }
          ok, left, done, empty, first := OneGroup(run, year, gi, answers, done0, |old(log)|, left, done, empty, first);
          if !ok {
            return;
          }
        }
        gi := gi + 1;
      }
    }
  }
}
