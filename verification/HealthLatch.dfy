/** Data-source health: the latch row written by reports, the mails it triggers, the status computed
    from it at read time, and the component status shown by the health endpoints. */
module HealthLatch {
  import opened Prelude

  datatype Latch = Ok | Degraded | Failed
  datatype Row = Row(lastSuccess: Option<real>, status: Latch, fails: nat)
  datatype Outcome = Success | Failure
  datatype Report = Report(source: string, outcome: Outcome, at: real)
  datatype Mail = Problem(source: string) | Recovered(source: string)

  // ---------- Meaning of a report history ----------

  /** The reports of one source, oldest first. */
  function Of(h: seq<Report>, source: string): seq<Report> {
    if h == [] then []
    else
      var rest := Of(h[..|h| - 1], source);
      if h[|h| - 1].source == source then rest + [h[|h| - 1]] else rest
  }

  /** Length of the run of failures that ends a source's reports. */
  function TrailingFailures(p: seq<Report>): nat {
    if p == [] || p[|p| - 1].outcome == Success then 0 else 1 + TrailingFailures(p[..|p| - 1])
  }

  function LastSuccess(p: seq<Report>): Option<real> {
    if p == [] then None
    else if p[|p| - 1].outcome == Success then Some(p[|p| - 1].at)
    else LastSuccess(p[..|p| - 1])
  }

  function LatchOf(fails: nat): Latch {
    if fails == 0 then Ok else if fails < 3 then Degraded else Failed
  }

  /** The row a source must have: none before its first report. */
  function RowOf(p: seq<Report>): Option<Row> {
    if p == [] then None
    else Some(Row(LastSuccess(p), LatchOf(TrailingFailures(p)), TrailingFailures(p)))
  }

  /** One problem mail when a failure run begins, one recovery mail when it ends. */
  function MailsOf(h: seq<Report>): seq<Mail> {
    if h == [] then []
    else
      var before, e := h[..|h| - 1], h[|h| - 1];
      var failing := TrailingFailures(Of(before, e.source)) > 0;
      MailsOf(before) +
      (if e.outcome == Failure && !failing then [Problem(e.source)]
       else if e.outcome == Success && failing then [Recovered(e.source)]
       else [])
  }

  function MailsAbout(mails: seq<Mail>, source: string): seq<Mail> {
    if mails == [] then []
    else
      var rest := MailsAbout(mails[..|mails| - 1], source);
      if mails[|mails| - 1].source == source then rest + [mails[|mails| - 1]] else rest
  }

  lemma {:induction false} TrailingFailuresIsARun(p: seq<Report>)
    ensures TrailingFailures(p) <= |p|
    ensures forall i :: |p| - TrailingFailures(p) <= i < |p| ==> p[i].outcome == Failure
    ensures TrailingFailures(p) < |p| ==> p[|p| - TrailingFailures(p) - 1].outcome == Success
  {
    if p != [] && p[|p| - 1].outcome == Failure {
      TrailingFailuresIsARun(p[..|p| - 1]);
    }
  }

  /** Problem and recovery mails take turns, a problem first; `open` tells whether one is unanswered. */
  ghost predicate Alternate(m: seq<Mail>, source: string, open: bool) {
    && (forall i :: 0 <= i < |m| ==> m[i] == if i % 2 == 0 then Problem(source) else Recovered(source))
    && (|m| % 2 == 1 <==> open)
  }

  predicate Failing(p: seq<Report>) {
    p != [] && p[|p| - 1].outcome == Failure
  }

  /** What one report sends: nothing unless it starts or ends a failure run of its source. */
  lemma MailsStep(before: seq<Report>, e: Report)
    ensures var sent := MailsOf(before);
      MailsOf(before + [e]) == (
        if (e.outcome == Failure) == Failing(Of(before, e.source)) then sent
        else sent + [if e.outcome == Failure then Problem(e.source) else Recovered(e.source)])
  {
    var h := before + [e];
    assert h[..|h| - 1] == before;
    assert MailsOf(before) + [] == MailsOf(before);
  }

  /** Problem and recovery mails of a source strictly alternate, starting with a problem, and one
      problem is unanswered exactly while the source's latest report is a failure. */
  lemma {:induction false} MailsAlternate(h: seq<Report>, source: string)
    ensures Alternate(MailsAbout(MailsOf(h), source), source, Failing(Of(h, source)))
  {
    if h != [] {
      MailsAlternate(h[..|h| - 1], source);
      AlternateStep(h[..|h| - 1], h[|h| - 1], source);
      assert h == h[..|h| - 1] + [h[|h| - 1]];
    }
  }

  lemma AlternateStep(before: seq<Report>, e: Report, source: string)
    requires Alternate(MailsAbout(MailsOf(before), source), source, Failing(Of(before, source)))
    ensures Alternate(MailsAbout(MailsOf(before + [e]), source), source, Failing(Of(before + [e], source)))
  {
    MailsStep(before, e);
    OfAppend(before, e, source);
    var sent, m, open := MailsOf(before), MailsAbout(MailsOf(before), source), Failing(Of(before, source));
    if e.source == source {
      assert Failing(Of(before, source) + [e]) == (e.outcome == Failure);
      if (e.outcome == Failure) != open {
        MailsAboutAppend(sent, if open then Recovered(source) else Problem(source), source);
        AlternateAppend(m, source, open);
      }
    } else {
      MailsAboutAppend(sent, if e.outcome == Failure then Problem(e.source) else Recovered(e.source), source);
    }
  }

  lemma AlternateAppend(m: seq<Mail>, source: string, open: bool)
    requires Alternate(m, source, open)
    ensures Alternate(m + [if open then Recovered(source) else Problem(source)], source, !open)
  {}

  lemma OfAppend(h: seq<Report>, e: Report, source: string)
    ensures Of(h + [e], source) == if e.source == source then Of(h, source) + [e] else Of(h, source)
  {
    assert (h + [e])[..|h + [e]| - 1] == h;
  }

  lemma MailsAboutAppend(mails: seq<Mail>, m: Mail, source: string)
    ensures MailsAbout(mails + [m], source) == MailsAbout(mails, source) + (if m.source == source then [m] else [])
  {
    assert (mails + [m])[..|mails + [m]| - 1] == mails;
  }

  // ---------- The table ----------

  /** Rows and mails are what the report history prescribes. */
  ghost predicate Fits(rows: map<string, Row>, mails: seq<Mail>, reports: seq<Report>) {
    (forall source: string :: Lookup(rows, source) == RowOf(Of(reports, source))) && mails == MailsOf(reports)
  }

  function Failures(row: Option<Row>): nat {
    if row.Some? then row.value.fails else 0
  }

  /** The row after one report. */
  function NextRow(row: Option<Row>, e: Report): Row {
    if e.outcome == Success then Row(Some(e.at), Ok, 0)
    else
      var fails := Failures(row) + 1;
      Row(if row.Some? then row.value.lastSuccess else None, if fails < 3 then Degraded else Failed, fails)
  }

  /** The mail a report sends. */
  function NextMail(row: Option<Row>, e: Report): seq<Mail> {
    if e.outcome == Success then
      if row.Some? && row.value.status in {Failed, Degraded} && row.value.fails > 0 then [Recovered(e.source)] else []
    else if Failures(row) == 0 then [Problem(e.source)] else []
  }

  lemma RowStep(p: seq<Report>, e: Report)
    ensures RowOf(p + [e]) == Some(NextRow(RowOf(p), e))
  {
    var q := p + [e];
    assert q[..|q| - 1] == p && q[|q| - 1] == e;
    assert TrailingFailures(q) == if e.outcome == Success then 0 else 1 + TrailingFailures(p);
    assert LastSuccess(q) == if e.outcome == Success then Some(e.at) else LastSuccess(p);
    assert p == [] ==> TrailingFailures(p) == 0 && LastSuccess(p) == None;
  }

  lemma MailStep(before: seq<Report>, e: Report)
    ensures MailsOf(before + [e]) == MailsOf(before) + NextMail(RowOf(Of(before, e.source)), e)
  {
    var p, sent := Of(before, e.source), MailsOf(before);
    MailsStep(before, e);
    FailingRow(p);
    assert sent + [] == sent;
  }

  lemma FailingRow(p: seq<Report>)
    ensures Failing(p) <==> Failures(RowOf(p)) > 0
    ensures Failing(p) ==> RowOf(p).value.status in {Failed, Degraded}
  {}

  lemma FitsStep(rows: map<string, Row>, mails: seq<Mail>, reports: seq<Report>, e: Report)
    requires Fits(rows, mails, reports)
    ensures var row := Lookup(rows, e.source);
      Fits(rows[e.source := NextRow(row, e)], mails + NextMail(row, e), reports + [e])
  {
    var row := Lookup(rows, e.source);
    var next := rows[e.source := NextRow(row, e)];
    forall source: string
      ensures Lookup(next, source) == RowOf(Of(reports + [e], source))
    {
      assert Lookup(rows, source) == RowOf(Of(reports, source));
      OfAppend(reports, e, source);
      RowStep(Of(reports, source), e);
    }
    MailStep(reports, e);
  }

  /** The health table and the mail log; `reports` is the history of all reports so far. */
  class HealthTable {
    var rows: map<string, Row>
    var mails: seq<Mail>
    ghost var reports: seq<Report>

    ghost predicate Valid()
      reads this
    {
      Fits(rows, mails, reports)
    }

    constructor ()
      ensures Valid() && reports == []
    {
      rows, mails, reports := map[], [], [];
    }

    method ReportSuccess(source: string, now: real)
      requires Valid()
      modifies this
      ensures Valid() && reports == old(reports) + [Report(source, Success, now)]
    {
      ghost var e := Report(source, Success, now);
      FitsStep(rows, mails, reports, e);
      var row := Lookup(rows, source);
      var wasFailing := row.Some? && row.value.status in {Failed, Degraded} && row.value.fails > 0;
      rows := rows[source := Row(Some(now), Ok, 0)];
      mails := mails + if wasFailing then [Recovered(source)] else [];
      reports := reports + [e];
    }

    method ReportFailure(source: string, now: real)
      requires Valid()
      modifies this
      ensures Valid() && reports == old(reports) + [Report(source, Failure, now)]
    {
      ghost var e := Report(source, Failure, now);
      FitsStep(rows, mails, reports, e);
      var row := Lookup(rows, source);
      var prev := if row.Some? then row.value.fails else 0;
      var fails := prev + 1;
      var first := prev == 0;
      var status := if fails < 3 then Degraded else Failed;
      var kept := if row.Some? then row.value.lastSuccess else None;
      assert Row(kept, status, fails) == NextRow(row, e);
      rows := rows[source := Row(kept, status, fails)];
      mails := mails + if first then [Problem(source)] else [];
      reports := reports + [e];
    }
  }

  // ---------- Status at read time ----------

  /** What the source table declares: the expected interval in minutes and the day it was added. */
  datatype Meta = Meta(interval: Option<nat>, since: Option<real>)
  datatype Shown = ShownOk | ShownDegraded | ShownFailed | Stale | Unknown | NeverRan
  datatype Component = Fine | Warning | Error

  function Minutes(since: real, now: real): int {
    ((now - since) / 60.0).Floor
  }

  /** True once more than two expected intervals of whole minutes have gone by. */
  predicate Overdue(meta: Meta, since: real, now: real) {
    meta.interval.Some? && meta.interval.value > 0 && Minutes(since, now) > meta.interval.value * 2
  }

  predicate IsStale(row: Option<Row>, meta: Meta, now: real) {
    match row
    case None => meta.since.Some? && Overdue(meta, meta.since.value, now)
    case Some(r) => r.lastSuccess.None? || Overdue(meta, r.lastSuccess.value, now)
  }

  function GetHealth(row: Option<Row>, meta: Meta, now: real): Shown {
    match row
    case None => if IsStale(row, meta, now) then NeverRan else Unknown
    case Some(r) =>
      if IsStale(row, meta, now) && r.status !in {Failed, Degraded} then Stale
      else match r.status
        case Ok => ShownOk
        case Degraded => ShownDegraded
        case Failed => ShownFailed
  }

  function FeedComponent(shown: Shown): Component {
    match shown
    case Unknown => Warning
    case NeverRan => Error
    case ShownFailed => Error
    case Stale => Error
    case ShownDegraded => Warning
    case ShownOk => Fine
  }

  function Severity(c: Component): nat {
    match c case Fine => 0 case Warning => 1 case Error => 2
  }

  /** With no new report a source's status only moves ok to stale or unknown to never-ran, so the
      component never improves by waiting. */
  lemma StatusOnlyWorsens(h: seq<Report>, source: string, meta: Meta, now: real, later: real)
    requires now <= later
    ensures var row := RowOf(Of(h, source));
      var a, b := GetHealth(row, meta, now), GetHealth(row, meta, later);
      && (a == b || (a == ShownOk && b == Stale) || (a == Unknown && b == NeverRan))
      && Severity(FeedComponent(a)) <= Severity(FeedComponent(b))
  {
    forall since: real
      ensures Minutes(since, now) <= Minutes(since, later)
    {
      assert (now - since) / 60.0 <= (later - since) / 60.0;
    }
  }

  /** "ok" is shown exactly while the source's latest report is a success younger than two intervals
      and one minute: ages are cut to whole minutes before they are compared. */
  lemma OkIsShownExactly(h: seq<Report>, source: string, meta: Meta, now: real)
    requires meta.interval.Some? && meta.interval.value > 0
    ensures var p := Of(h, source);
      GetHealth(RowOf(p), meta, now) == ShownOk <==>
      && p != [] && p[|p| - 1].outcome == Success
      && now - p[|p| - 1].at < (meta.interval.value * 2 + 1) as real * 60.0
  {
    var p := Of(h, source);
    if p != [] && p[|p| - 1].outcome == Success {
      var x, k := (now - p[|p| - 1].at) / 60.0, meta.interval.value * 2;
      assert x.Floor > k <==> x >= (k + 1) as real;
      assert now - p[|p| - 1].at == x * 60.0;
    } else if p != [] {
      assert TrailingFailures(p) >= 1;
    }
  }

  /** A source without an expected interval, or with one of zero, is never overdue. */
  lemma NeverOverdue(meta: Meta, since: real, now: real)
    requires meta.interval in {None, Some(0)}
    ensures !Overdue(meta, since, now)
  {}

  /** The component is fine exactly while the latest report is a success that is not overdue. */
  lemma FineIsShownExactly(h: seq<Report>, source: string, meta: Meta, now: real)
    ensures var p := Of(h, source);
      FeedComponent(GetHealth(RowOf(p), meta, now)) == Fine <==>
        p != [] && p[|p| - 1].outcome == Success && !Overdue(meta, p[|p| - 1].at, now)
  {
    var p := Of(h, source);
    if p != [] && p[|p| - 1].outcome == Failure {
      assert TrailingFailures(p) >= 1;
    }
  }

  /** A source that fell silent after one or two failures stays at "warning" for ever: staleness is
      folded into the status of a healthy latch only. */
  lemma SilentAfterFailureNeverEscalates(h: seq<Report>, source: string, meta: Meta, now: real)
    requires 1 <= TrailingFailures(Of(h, source)) < 3
    ensures FeedComponent(GetHealth(RowOf(Of(h, source)), meta, now)) == Warning
  {
    assert Of(h, source) != [];
  }

  /** The component of a source whose runs stopped: an error is raised for a source that last
      succeeded, or never reported, once it is overdue, and for a run of three failures at once. */
  lemma ErrorIsShownExactly(h: seq<Report>, source: string, meta: Meta, now: real)
    ensures var p := Of(h, source);
      FeedComponent(GetHealth(RowOf(p), meta, now)) == Error <==>
        if p == [] then meta.since.Some? && Overdue(meta, meta.since.value, now)
        else if p[|p| - 1].outcome == Success then Overdue(meta, p[|p| - 1].at, now)
        else TrailingFailures(p) >= 3
  {
    var p := Of(h, source);
    if p != [] && p[|p| - 1].outcome == Failure {
      assert TrailingFailures(p) >= 1;
    }
  }
}
