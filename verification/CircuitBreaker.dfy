/** The CelesTrak proxy: a two-hour cache per group, a breaker that stops all requests for six
    hours, and stale data as the fallback. */
module CircuitBreaker {
  import opened Prelude
  import opened Clocks

  const TTL := 7200.0
  const BREAKER_SEC := 21600.0
  const MAXFAIL := 3

  /** What the server did with one request; transport errors have no status, and a body that is not UTF-8
      (None) raises before the status is looked at. */
  datatype Answer = Http(status: int, body: Option<string>) | TransportError

  predicate Good(a: Answer) {
    a.Http? && a.body.Some? && a.status == 200 && |a.body.value| > 100
  }

  predicate PolicyStop(a: Answer) {
    a.Http? && a.body.Some? && !Good(a) && (a.status in {301, 302, 403, 404, 429} || a.status >= 500)
  }

  const GROUPS: map<string, string> := map[
    "stations" := "stations", "active" := "active", "oneweb" := "oneweb",
    "cosmos-deb" := "cosmos-1408-debris", "fengyun-deb" := "fengyun-1c-debris",
    "iridium-deb" := "iridium-33-debris", "rocket-body" := "analyst",
    "last-30-days" := "last-30-days", "cosmos2251-deb" := "cosmos-2251-debris",
    "geo" := "geo", "gnss" := "gnss", "cubesat" := "cubesat", "science" := "science",
    "military" := "military", "kuiper" := "kuiper", "qianfan" := "qianfan"]

  /** One request that left the process: when, for which group, and what came back. */
  datatype Request = Request(at: real, group: string, answer: Answer)
  datatype Entry = Entry(ts: real, data: string)

  // ---------- Meaning of a request history ----------

  /** Length of the run of failed requests that ends the history, whatever their groups. */
  function FailRun(h: seq<Request>): nat {
    if h == [] || Good(h[|h| - 1].answer) then 0 else 1 + FailRun(h[..|h| - 1])
  }

  /** Some request of the final failure run was refused by policy. */
  predicate PolicyInRun(h: seq<Request>) {
    h != [] && !Good(h[|h| - 1].answer) && (PolicyStop(h[|h| - 1].answer) || PolicyInRun(h[..|h| - 1]))
  }

  /** The last request must silence the client: a policy stop, or the third failure in a row or
      later, or any failure while an earlier policy stop has not been followed by a success. */
  predicate Opens(h: seq<Request>) {
    FailRun(h) >= MAXFAIL || PolicyInRun(h)
  }

  /** The newest usable data of a group: its latest good answer, else what the disk held at start. */
  function LastGood(disk: map<string, Entry>, h: seq<Request>, group: string): Option<Entry> {
    if h == [] then (if group in disk then Some(disk[group]) else None)
    else
      var r := h[|h| - 1];
      if r.group == group && Good(r.answer) then Some(Entry(r.at, r.answer.body.value))
      else LastGood(disk, h[..|h| - 1], group)
  }

  ghost predicate Chronological(h: seq<Request>) {
    forall i, j :: 0 <= i <= j < |h| ==> h[i].at <= h[j].at
  }

  /** No request of any group starts within six hours of the start of one that opened the breaker. */
  ghost predicate Silenced(h: seq<Request>) {
    forall i, j :: 0 <= i < j < |h| && Opens(h[..i + 1]) ==> h[j].at >= h[i].at + 6.0 * 3600.0
  }

  /** No request of a group starts within two hours of its last success. */
  ghost predicate RespectsCache(h: seq<Request>) {
    forall i, j :: 0 <= i < j < |h| && h[i].group == h[j].group && Good(h[i].answer) ==>
      h[j].at >= h[i].at + 2.0 * 3600.0
  }

  ghost predicate Disciplined(h: seq<Request>) {
    Chronological(h) && Silenced(h) && RespectsCache(h)
  }

  /** A request made when the breaker is closed and the cache is old keeps the history disciplined. */
  lemma DisciplineStep(disk: map<string, Entry>, h: seq<Request>, r: Request)
    requires Disciplined(h)
    requires h != [] ==> h[|h| - 1].at <= r.at
    requires Opens(h) ==> h[|h| - 1].at + BREAKER_SEC <= r.at
    requires var last := LastGood(disk, h, r.group); last.Some? ==> r.at - last.value.ts >= TTL
    ensures Disciplined(h + [r])
  {
    var q := h + [r];
    forall i, j | 0 <= i < j < |q| && Opens(q[..i + 1])
      ensures q[j].at >= q[i].at + BREAKER_SEC
    {
      assert q[..i + 1] == h[..i + 1];
      if j == |h| {
        if i == |h| - 1 {
          assert h[..i + 1] == h;
        } else {
          assert h[|h| - 1].at >= h[i].at + BREAKER_SEC;
        }
      }
    }
    forall i, j | 0 <= i < j < |q| && q[i].group == q[j].group && Good(q[i].answer)
      ensures q[j].at >= q[i].at + TTL
    {
      if j == |h| {
        LastGoodIsNewest(disk, h, r.group, i);
      }
    }
  }

  function DataOf(e: Option<Entry>): Option<string> {
    if e.Some? then Some(e.value.data) else None
  }

  /** When a call has to leave the process. */
  predicate MustAsk(disk: map<string, Entry>, h: seq<Request>, group: string, now: real) {
    && group in GROUPS
    && !(LastGood(disk, h, group).Some? && now - LastGood(disk, h, group).value.ts < TTL)
    && !(Opens(h) && now < h[|h| - 1].at + BREAKER_SEC)
  }

  /** The Starlink group, a part of the active one, is never asked for. */
  lemma StarlinkIsNeverAsked(disk: map<string, Entry>, h: seq<Request>, now: real)
    ensures !MustAsk(disk, h, "starlink", now) && "active" in GROUPS
  {}

  /** Histories the proxy can produce: time never runs back and every request had to be made. */
  predicate Legal(disk: map<string, Entry>, h: seq<Request>) {
    h == [] ||
    var before, r := h[..|h| - 1], h[|h| - 1];
    && Legal(disk, before)
    && (before != [] ==> before[|before| - 1].at <= r.at)
    && MustAsk(disk, before, r.group, r.at)
  }

  /** Over every run: requests come in time order, none within six hours of an opening of the
      breaker, none within two hours of its group's last success. */
  lemma {:induction false} LegalIsDisciplined(disk: map<string, Entry>, h: seq<Request>)
    requires Legal(disk, h)
    ensures Disciplined(h)
  {
    if h != [] {
      LegalIsDisciplined(disk, h[..|h| - 1]);
      DisciplineStep(disk, h[..|h| - 1], h[|h| - 1]);
      assert h == h[..|h| - 1] + [h[|h| - 1]];
    }
  }

  lemma FailRunStep(h: seq<Request>, r: Request)
    ensures FailRun(h + [r]) == if Good(r.answer) then 0 else 1 + FailRun(h)
    ensures PolicyInRun(h + [r]) <==> !Good(r.answer) && (PolicyStop(r.answer) || PolicyInRun(h))
  {
    assert (h + [r])[..|h + [r]| - 1] == h;
  }

  lemma LastGoodStep(disk: map<string, Entry>, h: seq<Request>, r: Request, group: string)
    ensures LastGood(disk, h + [r], group) ==
            if r.group == group && Good(r.answer) then Some(Entry(r.at, r.answer.body.value))
            else LastGood(disk, h, group)
  {
    assert (h + [r])[..|h + [r]| - 1] == h;
  }

  /** The last good entry is at least as new as every success of the group. */
  lemma {:induction false} LastGoodIsNewest(disk: map<string, Entry>, h: seq<Request>, group: string, i: nat)
    requires Chronological(h) && i < |h| && h[i].group == group && Good(h[i].answer)
    ensures LastGood(disk, h, group).Some? && h[i].at <= LastGood(disk, h, group).value.ts
  {
    var r := h[|h| - 1];
    if !(r.group == group && Good(r.answer)) {
      assert h[..|h| - 1][i] == h[i];
      LastGoodIsNewest(disk, h[..|h| - 1], group, i);
    }
  }

  /** A policy stop, and each failure from the third in a row on, opens the breaker whatever came before. */
  lemma OpensOnPolicyOrThirdFailure(h: seq<Request>, r: Request)
    ensures PolicyStop(r.answer) ==> Opens(h + [r])
    ensures !Good(r.answer) && FailRun(h) >= MAXFAIL - 1 ==> Opens(h + [r])
  {
    FailRunStep(h, r);
  }

  /** An answer is good, a policy stop or a plain failure: status 200 with more than 100 characters, a redirect,
      refusal or server error with a readable body, or anything else. */
  lemma AnswersByStatus(status: int, body: string)
    ensures Good(Http(status, Some(body))) <==> status == 200 && |body| >= 101
    ensures PolicyStop(Http(status, Some(body))) <==>
      status == 301 || status == 302 || status == 403 || status == 404 || status == 429 || status >= 500
    ensures !Good(TransportError) && !PolicyStop(TransportError)
  {}

  /** A plain failure is forgiven twice: the third in a row opens the breaker, and a success clears the count. */
  lemma ThirdPlainFailureOpens(h: seq<Request>, r: Request, s: Request, t: Request, u: Request)
    requires !PolicyInRun(h) && Good(r.answer)
    requires forall x :: x in [s, t, u] ==> !Good(x.answer) && !PolicyStop(x.answer)
    ensures !Opens(h + [r]) && !Opens(h + [r] + [s]) && !Opens(h + [r] + [s] + [t])
    ensures Opens(h + [r] + [s] + [t] + [u])
  {
    assert s in [s, t, u] && t in [s, t, u] && u in [s, t, u];
    FailRunStep(h, r);
    FailRunStep(h + [r], s);
    FailRunStep(h + [r] + [s], t);
    FailRunStep(h + [r] + [s] + [t], u);
  }

  /** A refusal whose body does not decode counts as one plain failure: alone it opens nothing. */
  lemma UndecodableRefusalIsPlain(h: seq<Request>, r: Request, status: int)
    requires r.answer == Http(status, None) && FailRun(h) < MAXFAIL - 1 && !PolicyInRun(h)
    ensures !Opens(h + [r])
  {
    FailRunStep(h, r);
  }

  // ---------- The proxy ----------

  /** What cache and breaker must hold after a given history. */
  datatype State = State(cache: map<string, Entry>, fails: nat, until: real) {
    ghost predicate Fits(disk: map<string, Entry>, h: seq<Request>) {
      && (forall g :: Lookup(cache, g) == LastGood(disk, h, g))
      && (if PolicyInRun(h) then fails > MAXFAIL else fails == FailRun(h))
      && until == (if Opens(h) then h[|h| - 1].at + BREAKER_SEC else 0.0)
    }

    /** State after a request made at `now`. */
    function After(r: Request): State {
      if Good(r.answer) then State(cache[r.group := Entry(r.at, r.answer.body.value)], 0, 0.0)
      else
        var f := (if PolicyStop(r.answer) then MAXFAIL else fails) + 1;
        State(cache, f, if f >= MAXFAIL then r.at + BREAKER_SEC else until)
    }

    lemma FitsAfter(disk: map<string, Entry>, h: seq<Request>, r: Request)
      requires Fits(disk, h)
      ensures After(r).Fits(disk, h + [r])
    {
      FailRunStep(h, r);
      forall g
        ensures Lookup(After(r).cache, g) == LastGood(disk, h + [r], g)
      {
        LastGoodStep(disk, h, r, g);
      }
    }
  }

  class Proxy {
    const clock: Clock
    var cache: map<string, Entry>
    var fails: nat
    var until: real
    ghost const disk: map<string, Entry>
    ghost var history: seq<Request>

    ghost predicate Valid()
      reads this, clock
    {
      && 0.0 <= clock.now
      && Legal(disk, history)
      && (history != [] ==> history[|history| - 1].at <= clock.now)
      && State(cache, fails, until).Fits(disk, history)
    }

    /** Start of the process: the cache is read back from disk, the breaker is closed. */
    constructor (clock: Clock, disk: map<string, Entry>)
      requires 0.0 <= clock.now
      ensures Valid() && history == [] && this.disk == disk && this.clock == clock
    {
      this.clock := clock;
      this.disk := disk;
      cache := disk;
      fails, until := 0, 0.0;
      history := [];
    }

    /** One call.  It makes at most one request, and makes one exactly when the group is known, its
        last good data is at least two hours old or missing, and the last opening of the breaker is
        six hours past; it returns the group's newest good data whenever there is any. */
    method FetchTleGroup(group: string, answer: Answer) returns (data: Option<string>, now: real)
      requires Valid()
      modifies this, clock
      ensures Valid() && old(clock.now) <= now == clock.now
      ensures history == if MustAsk(disk, old(history), group, now)
                         then old(history) + [Request(now, group, answer)] else old(history)
      ensures data == if group in GROUPS then DataOf(LastGood(disk, history, group)) else None
    {
      now := clock.Time();
      if group !in GROUPS {
        return None, now;
      }
      var cached := Lookup(cache, group);
      if cached.Some? && now - cached.value.ts < TTL {
        return Some(cached.value.data), now;
      }
      if now < until {
        return DataOf(cached), now;
      }
      data := Ask(Request(now, group, answer));
    }

    /** The single attempt, without retry. */
    method Ask(r: Request) returns (data: Option<string>)
      requires Valid() && r.at == clock.now && MustAsk(disk, history, r.group, r.at)
      modifies this
      ensures Valid() && history == old(history) + [r]
      ensures data == DataOf(LastGood(disk, history, r.group))
    {
      var cached := Lookup(cache, r.group);
      Note(r);
      LastGoodStep(disk, old(history), r, r.group);
      if Good(r.answer) {
        cache := cache[r.group := Entry(r.at, r.answer.body.value)];
        fails, until := 0, 0.0;
        return Some(r.answer.body.value);
      }
      if PolicyStop(r.answer) {
        fails := MAXFAIL;
      }
      fails := fails + 1;
      if fails >= MAXFAIL {
        until := r.at + BREAKER_SEC;
      }
      return DataOf(cached);
    }

    /** Enters the request in the history; what cache and breaker must become is then settled. */
    ghost method Note(r: Request)
      requires Valid() && r.at == clock.now
      requires MustAsk(disk, history, r.group, r.at)
      modifies this`history
      ensures history == old(history) + [r] && Legal(disk, history)
      ensures State(cache, fails, until).After(r).Fits(disk, history)
    {
      assert (history + [r])[..|history + [r]| - 1] == history;
      State(cache, fails, until).FitsAfter(disk, history, r);
      history := history + [r];
    }
  }
}
