/** Sliding-window limiters: the request throttles of the archive download and of the
    DISCOS sync, and the contact form limiter.  The wall clock is the only environment:
    successive readings never decrease and a sleep lasts at least as long as asked. */
module Clocks {
  class Clock {
    var now: real

    constructor (start: real)
      ensures now == start
    {
      now := start;
    }

    method Time() returns (t: real)
      modifies this
      ensures old(now) <= t == now
    {
      var tick: real := *;
      now := if 0.0 <= tick then now + tick else now;
      t := now;
    }

    method Sleep(seconds: real)
      requires 0.0 <= seconds
      modifies this
      ensures old(now) + seconds <= now
    {
      var oversleep: real := *;
      now := now + seconds + (if 0.0 <= oversleep then oversleep else 0.0);
    }
  }
}

module SlidingWindow {
  import opened Clocks

  // ---------- What "still inside the window" means ----------

  predicate Ordered(h: seq<real>) {
    forall i, j :: 0 <= i <= j < |h| ==> h[i] <= h[j]
  }

  /** The entries of h younger than the window at time t, in order. */
  function Fresh(h: seq<real>, t: real, window: real): seq<real> {
    if h == [] then []
    else if t - h[0] < window then [h[0]] + Fresh(h[1..], t, window)
    else Fresh(h[1..], t, window)
  }

  /** Any call and the one `limit` calls later are at least a window apart. */
  ghost predicate Spaced(h: seq<real>, limit: nat, window: real) {
    forall i, j :: 0 <= i < |h| && i + limit <= j < |h| ==> h[j] - h[i] >= window
  }

  /** From time `now` on, the short list answers every freshness question as the whole history would. */
  ghost predicate StandsFor(list: seq<real>, history: seq<real>, now: real, window: real) {
    forall u: real :: now <= u ==> Fresh(list, u, window) == Fresh(history, u, window)
  }

  lemma {:induction false} FreshConcat(a: seq<real>, b: seq<real>, t: real, window: real)
    ensures Fresh(a + b, t, window) == Fresh(a, t, window) + Fresh(b, t, window)
  {
    if a == [] {
      assert a + b == b;
    } else {
      assert (a + b)[1..] == a[1..] + b;
      FreshConcat(a[1..], b, t, window);
    }
  }

  /** Purging early loses nothing that a later purge would have kept. */
  lemma {:induction false} FreshTwice(h: seq<real>, t: real, u: real, window: real)
    requires t <= u
    ensures Fresh(Fresh(h, t, window), u, window) == Fresh(h, u, window)
  {
    if h != [] {
      FreshTwice(h[1..], t, u, window);
      var rest := Fresh(h[1..], t, window);
      assert ([h[0]] + rest)[1..] == rest;
    }
  }

  /** On an ordered history the fresh entries are exactly a suffix. */
  lemma {:induction false} FreshIsSuffix(h: seq<real>, t: real, window: real) returns (k: nat)
    requires Ordered(h)
    ensures k <= |h| && Fresh(h, t, window) == h[k..]
    ensures forall i :: 0 <= i < k ==> t - h[i] >= window
    ensures forall i :: k <= i < |h| ==> t - h[i] < window
  {
    if h == [] {
      k := 0;
    } else if t - h[0] < window {
      var k' := FreshIsSuffix(h[1..], t, window);
      assert |h| > 1 ==> t - h[1..][0] < window;
      k := 0;
      assert h == [h[0]] + h[1..];
      assert forall i :: 1 <= i < |h| ==> h[i] == h[1..][i - 1];
    } else {
      var k' := FreshIsSuffix(h[1..], t, window);
      k := k' + 1;
      assert forall i :: 1 <= i < |h| ==> h[i] == h[1..][i - 1];
    }
  }

  /** `limit` fresh entries exist exactly when the entry `limit` places from the end is fresh. */
  lemma FullWindow(h: seq<real>, t: real, window: real, limit: nat)
    requires Ordered(h) && 0 < limit
    ensures |Fresh(h, t, window)| >= limit <==> |h| >= limit && t - h[|h| - limit] < window
  {
    var k := FreshIsSuffix(h, t, window);
  }

  lemma FreshBound(h: seq<real>, t: real, window: real)
    ensures |Fresh(h, t, window)| <= |h|
  {}

  /** Appending a call made at time t keeps the spacing as soon as fewer than `limit` are fresh. */
  lemma SpacedAppend(h: seq<real>, t: real, limit: nat, window: real)
    requires Ordered(h) && Spaced(h, limit, window) && 0 < limit
    requires forall i :: 0 <= i < |h| ==> h[i] <= t
    requires |Fresh(h, t, window)| < limit
    ensures Ordered(h + [t]) && Spaced(h + [t], limit, window)
  {
    FullWindow(h, t, window, limit);
  }

  /** Deciding one more entry at time t keeps the short list as good as the long one. */
  lemma StandsForNext(list: seq<real>, all: seq<real>, x: real, now: real, t: real, window: real)
    requires StandsFor(list, all, now, window) && now <= t
    ensures StandsFor(if t - x < window then list + [x] else list, all + [x], t, window)
  {
    forall u: real | t <= u
      ensures Fresh(if t - x < window then list + [x] else list, u, window) == Fresh(all + [x], u, window)
    {
      FreshConcat(all, [x], u, window);
      FreshConcat(list, [x], u, window);
      assert t - x >= window ==> Fresh([x], u, window) == [];
    }
  }

  // ---------- The second filter, one clock reading per entry ----------

  predicate Young(h: seq<real>, readings: seq<real>, window: real, i: nat)
    requires i < |h| == |readings|
  {
    readings[i] - h[i] < window
  }

  function FreshRereading(h: seq<real>, readings: seq<real>, window: real): seq<real>
    requires |h| == |readings|
  {
    if h == [] then []
    else
      var n := |h| - 1;
      FreshRereading(h[..n], readings[..n], window) + if Young(h, readings, window, n) then [h[n]] else []
  }

  /** Readings of one clock between two times. */
  ghost predicate ReadBetween(readings: seq<real>, from: real, to: real) {
    Ordered(readings) && forall i :: 0 <= i < |readings| ==> from <= readings[i] <= to
  }

  lemma ReadingsAppend(readings: seq<real>, from: real, to: real, t: real)
    requires ReadBetween(readings, from, to) && from <= to <= t
    ensures ReadBetween(readings + [t], from, t)
  {}

  /** `out` is what the second filter keeps of `done`, read between two times. */
  ghost predicate Purged(out: seq<real>, done: seq<real>, readings: seq<real>, from: real, to: real, window: real) {
    && |readings| == |done| && ReadBetween(readings, from, to)
    && out == FreshRereading(done, readings, window)
    && StandsFor(out, done, to, window)
  }

  lemma PurgedNext(out: seq<real>, done: seq<real>, readings: seq<real>, from: real, to: real, window: real, x: real,
                   t: real)
    requires Purged(out, done, readings, from, to, window) && from <= to <= t
    ensures Purged(if t - x < window then out + [x] else out, done + [x], readings + [t], from, t, window)
  {
    StandsForNext(out, done, x, to, t, window);
    RereadingAppend(done, readings, window, x, t);
    ReadingsAppend(readings, from, to, t);
  }

  /** An entry past the window at the first reading is dropped. */
  lemma PurgedShrinks(out: seq<real>, done: seq<real>, readings: seq<real>, from: real, to: real, window: real)
    requires Purged(out, done, readings, from, to, window)
    ensures |out| <= |done|
    ensures done != [] && from - done[0] >= window ==> |out| < |done|
  {
    RereadingLength(done, readings, window);
  }

  lemma {:induction false} RereadingLength(h: seq<real>, readings: seq<real>, window: real)
    requires |h| == |readings|
    ensures |FreshRereading(h, readings, window)| <= |h|
    ensures h != [] && !Young(h, readings, window, 0) ==> |FreshRereading(h, readings, window)| < |h|
  {
    if |h| > 0 {
      RereadingLength(h[..|h| - 1], readings[..|h| - 1], window);
    }
  }

  ghost predicate IsSuffix(list: seq<real>, h: seq<real>) {
    exists k :: 0 <= k <= |h| && list == h[k..]
  }

  /** Once an entry is young enough for its reading, all later ones are. */
  ghost predicate OneCut(h: seq<real>, readings: seq<real>, window: real)
    requires |h| == |readings|
  {
    forall i, j :: 0 <= i < j < |h| && Young(h, readings, window, i) ==> Young(h, readings, window, j)
  }

  lemma RereadingAppend(h: seq<real>, readings: seq<real>, window: real, x: real, t: real)
    requires |h| == |readings|
    ensures FreshRereading(h + [x], readings + [t], window) ==
            FreshRereading(h, readings, window) + if t - x < window then [x] else []
  {
    assert (h + [x])[..|h|] == h && (readings + [t])[..|h|] == readings;
  }

  lemma {:induction false} CutAt(h: seq<real>, readings: seq<real>, window: real, k: nat)
    requires |h| == |readings| && k <= |h|
    requires forall i :: 0 <= i < |h| ==> (Young(h, readings, window, i) <==> k <= i)
    ensures FreshRereading(h, readings, window) == h[k..]
  {
    if h != [] {
      var n := |h| - 1;
      var g, r := h[..n], readings[..n];
      forall i | 0 <= i < n
        ensures Young(g, r, window, i) <==> k <= i
      {
        assert Young(g, r, window, i) <==> Young(h, readings, window, i);
      }
      assert Young(h, readings, window, n) <==> k <= n;
      if k <= n {
        CutAt(g, r, window, k);
        assert h[k..] == g[k..] + [h[n]];
      } else {
        CutAt(g, r, window, n);
        assert h[k..] == [] == g[n..];
      }
    }
  }

  lemma {:induction false} RereadingMembers(h: seq<real>, readings: seq<real>, window: real, x: real)
    requires |h| == |readings|
    ensures x in FreshRereading(h, readings, window)
      <==> exists i :: 0 <= i < |h| && h[i] == x && Young(h, readings, window, i)
  {
    if h != [] {
      var n := |h| - 1;
      RereadingMembers(h[..n], readings[..n], window, x);
      assert forall i :: 0 <= i < n ==> (Young(h[..n], readings[..n], window, i) <==> Young(h, readings, window, i));
    }
  }

  lemma OneCutIsSuffix(h: seq<real>, readings: seq<real>, window: real)
    requires |h| == |readings| && OneCut(h, readings, window)
    ensures IsSuffix(FreshRereading(h, readings, window), h)
  {
    var k := 0;
    while k < |h| && !Young(h, readings, window, k)
      invariant 0 <= k <= |h|
      invariant forall i :: 0 <= i < k ==> !Young(h, readings, window, i)
    {
      k := k + 1;
    }
    CutAt(h, readings, window, k);
  }

  /** What the second filter keeps of distinct ordered calls is a suffix exactly when its readings leave one
      cut. */
  lemma SuffixExactly(h: seq<real>, readings: seq<real>, window: real)
    requires |h| == |readings| && forall i, j :: 0 <= i < j < |h| ==> h[i] < h[j]
    ensures IsSuffix(FreshRereading(h, readings, window), h) <==> OneCut(h, readings, window)
  {
    if IsSuffix(FreshRereading(h, readings, window), h) {
      var k :| 0 <= k <= |h| && FreshRereading(h, readings, window) == h[k..];
      SuffixIsCut(h, readings, window, k);
    }
    if OneCut(h, readings, window) {
      OneCutIsSuffix(h, readings, window);
    }
  }

  lemma SuffixIsCut(h: seq<real>, readings: seq<real>, window: real, k: nat)
    requires |h| == |readings| && forall i, j :: 0 <= i < j < |h| ==> h[i] < h[j]
    requires k <= |h| && FreshRereading(h, readings, window) == h[k..]
    ensures forall i :: 0 <= i < |h| ==> (Young(h, readings, window, i) <==> k <= i)
  {
    forall i | 0 <= i < |h|
      ensures Young(h, readings, window, i) <==> k <= i
    {
      RereadingMembers(h, readings, window, h[i]);
      InTail(h, k, i);
    }
  }

  lemma InTail(h: seq<real>, k: nat, i: nat)
    requires k <= |h| && i < |h| && forall i, j :: 0 <= i < j < |h| ==> h[i] < h[j]
    ensures h[i] in h[k..] <==> k <= i
  {
    if k <= i {
      assert h[k..][i - k] == h[i];
    }
  }

  /** A clock that moves no further between two readings than the calls lie apart leaves a suffix. */
  lemma SlowReadingsKeepASuffix(h: seq<real>, readings: seq<real>, window: real)
    requires |h| == |readings|
    requires forall i, j :: 0 <= i < j < |h| ==> readings[j] - readings[i] <= h[j] - h[i]
    ensures IsSuffix(FreshRereading(h, readings, window), h)
  {
    OneCutIsSuffix(h, readings, window);
  }

  // ---------- The archive download and DISCOS throttles ----------

  /** What a throttle's list must be for a history of calls. */
  ghost predicate Sound(list: seq<real>, history: seq<real>, now: real, limit: nat, window: real) {
    && Ordered(history)
    && (forall i :: 0 <= i < |history| ==> history[i] <= now)
    && |list| <= limit
    && StandsFor(list, history, now, window)
    && Spaced(history, limit, window)
  }

  /** One throttle; both scripts run the same code with their own constants. */
  class Throttle {
    const clock: Clock
    const window: real
    const limit: nat
    const slack: real
    var reqTimes: seq<real>
    ghost var history: seq<real>

    ghost predicate Valid()
      reads this, clock
    {
      0.0 < window && 0.0 <= slack && 0 < limit && Sound(reqTimes, history, clock.now, limit, window)
    }

    /** At most 120 archive requests an hour. */
    constructor Archive(clock: Clock)
      ensures Valid() && history == [] && this.clock == clock && window == 3600.0 && limit == 120 && slack == 5.0
    {
      this.clock, window, limit, slack := clock, 3600.0, 120, 5.0;
      reqTimes, history := [], [];
    }

    /** At most 90 DISCOS requests a minute. */
    constructor Discos(clock: Clock)
      ensures Valid() && history == [] && this.clock == clock && window == 60.0 && limit == 90 && slack == 1.0
    {
      this.clock, window, limit, slack := clock, 60.0, 90, 1.0;
      reqTimes, history := [], [];
    }

    /** The second filter: the clock is read again for every entry examined. */
    method PurgeRereading() returns (ghost readings: seq<real>)
      requires 0.0 < window
      modifies this`reqTimes, clock
      ensures |readings| == |old(reqTimes)| && ReadBetween(readings, old(clock.now), clock.now)
      ensures reqTimes == FreshRereading(old(reqTimes), readings, window)
      ensures old(clock.now) <= clock.now
      ensures |reqTimes| <= |old(reqTimes)|
      ensures old(reqTimes) != [] && old(clock.now - reqTimes[0]) >= window ==> |reqTimes| < |old(reqTimes)|
      ensures StandsFor(reqTimes, old(reqTimes), clock.now, window)
    {
      var before, out := reqTimes, [];
      readings := [];
      var i := 0;
      while i < |before|
        invariant 0 <= i <= |before| && before == reqTimes == old(reqTimes)
        invariant old(clock.now) <= clock.now
        invariant Purged(out, before[..i], readings, old(clock.now), clock.now, window)
      {
        ghost var earlier := clock.now;
        var t := clock.Time();
        PurgedNext(out, before[..i], readings, old(clock.now), earlier, window, before[i], t);
        assert before[..i + 1] == before[..i] + [before[i]];
        readings := readings + [t];
        if t - before[i] < window {
          out := out + [before[i]];
        }
        i := i + 1;
      }
      assert before[..i] == before;
      PurgedShrinks(out, before, readings, old(clock.now), clock.now, window);
      reqTimes := out;
    }

    /** One throttled call.  It sleeps exactly when `limit` earlier calls of the whole history are
        younger than the window at its first clock reading, and afterwards any two calls `limit`
        apart are a window apart. */
    method Call() returns (slept: bool, first: real)
      requires Valid()
      modifies this, clock
      ensures Valid()
      ensures old(clock.now) <= first <= clock.now
      ensures slept <==> |old(history)| >= limit && first - old(history)[|old(history)| - limit] < window
      ensures history == old(history) + [clock.now]
    {
      var now := clock.Time();
      first := now;
      forall u: real | now <= u
        ensures Fresh(Fresh(reqTimes, now, window), u, window) == Fresh(history, u, window)
      {
        FreshTwice(reqTimes, now, u, window);
      }
      assert Fresh(reqTimes, now, window) == Fresh(history, now, window);
      FullWindow(history, now, window, limit);
      FreshBound(reqTimes, now, window);
      OldestFresh(reqTimes, now);
      reqTimes := Fresh(reqTimes, now, window);
      slept := |reqTimes| >= limit;
      if slept {
        var wait := window - (now - reqTimes[0]) + slack;
        clock.Sleep(if wait < 0.0 then 0.0 else wait);
        ghost var _ := PurgeRereading();
      }
      var stamp := clock.Time();
      assert Fresh(reqTimes, stamp, window) == Fresh(history, stamp, window);
      FreshBound(reqTimes, stamp, window);
      SpacedAppend(history, stamp, limit, window);
      forall u: real | stamp <= u
        ensures Fresh(reqTimes + [stamp], u, window) == Fresh(history + [stamp], u, window)
      {
        FreshConcat(reqTimes, [stamp], u, window);
        FreshConcat(history, [stamp], u, window);
      }
      reqTimes := reqTimes + [stamp];
      history := history + [stamp];
    }

    /** The head of a purged list is younger than the window. */
    lemma {:induction false} OldestFresh(list: seq<real>, t: real)
      ensures Fresh(list, t, window) != [] ==> t - Fresh(list, t, window)[0] < window
    {
      if list != [] && t - list[0] >= window {
        OldestFresh(list[1..], t);
      }
    }
  }

  /** `limit` calls within a few seconds of each other. */
  function Burst(limit: nat, slack: real): seq<real>
    requires limit > 3
  {
    [0.0, slack + 1.0, slack + 2.0] + seq(limit - 3, _ => slack + 3.0)
  }

  /** Readings after the shortest sleep, the clock moving on once after the second entry. */
  function Stutter(limit: nat, slack: real, window: real): seq<real>
    requires limit > 3
  {
    [window + slack, window + slack] + seq(limit - 2, _ => window + slack + 2.0)
  }

  /** The list a throttle keeps need not be a suffix of its calls.  After a burst that fills the list, the
      next call sleeps; when the clock then moves on by two seconds while the second filter is at work, the
      filter keeps the second call and drops the third. */
  lemma RereadingKeepsANonSuffix(limit: nat, slack: real, window: real)
    requires 3 < limit && 0.0 <= slack && slack + 3.0 < window
    ensures var calls, now, readings := Burst(limit, slack), slack + 3.0, Stutter(limit, slack, window);
      && |calls| == |readings| == limit && Sound(calls, calls, now, limit, window)
      && Fresh(calls, now, window) == calls
      && readings[0] == now + (window - (now - calls[0]) + slack) && Ordered(readings)
      && !IsSuffix(FreshRereading(calls, readings, window), calls)
  {
    BurstIsSound(limit, slack, window);
    StutterIsOrdered(limit, slack, window);
    BurstIsNoSuffix(limit, slack, window);
  }

  lemma StutterIsOrdered(limit: nat, slack: real, window: real)
    requires 3 < limit
    ensures var r := Stutter(limit, slack, window); |r| == limit && r[0] == window + slack && Ordered(r)
  {}

  lemma BurstIsNoSuffix(limit: nat, slack: real, window: real)
    requires 3 < limit && 0.0 <= slack && slack + 3.0 < window
    ensures |Burst(limit, slack)| == |Stutter(limit, slack, window)| == limit
    ensures !IsSuffix(FreshRereading(Burst(limit, slack), Stutter(limit, slack, window), window), Burst(limit, slack))
  {
    var calls, readings := Burst(limit, slack), Stutter(limit, slack, window);
    BurstKept(limit, slack, window, limit);
    assert calls[..limit] == calls && readings[..limit] == readings;
    NoSuffix(FreshRereading(calls, readings, window), calls);
  }

  lemma BurstIsSound(limit: nat, slack: real, window: real)
    requires 3 < limit && 0.0 <= slack && slack + 3.0 < window
    ensures var calls, now := Burst(limit, slack), slack + 3.0;
      |calls| == limit && Sound(calls, calls, now, limit, window) && Fresh(calls, now, window) == calls
  {
    var _ := FreshIsSuffix(Burst(limit, slack), slack + 3.0, window);
  }

  lemma NoSuffix(list: seq<real>, h: seq<real>)
    requires 3 < |h| && |list| == |h| - 2 && list[0] != h[2]
    ensures !IsSuffix(list, h)
  {
    forall k | 0 <= k <= |h|
      ensures list != h[k..]
    {
      if k == 2 {
        assert h[2..][0] == h[2];
      }
    }
  }

  lemma {:induction false} BurstKept(limit: nat, slack: real, window: real, n: nat)
    requires 3 < limit && 0.0 <= slack && slack + 3.0 < window && 3 <= n <= limit
    ensures |Burst(limit, slack)| == |Stutter(limit, slack, window)| == limit
    ensures FreshRereading(Burst(limit, slack)[..n], Stutter(limit, slack, window)[..n], window)
         == [slack + 1.0] + Burst(limit, slack)[3..n]
  {
    var calls, readings := Burst(limit, slack), Stutter(limit, slack, window);
    var h, r := calls[..n], readings[..n];
    assert h[..n - 1] == calls[..n - 1] && r[..n - 1] == readings[..n - 1];
    if n > 3 {
      BurstKept(limit, slack, window, n - 1);
      assert Young(h, r, window, n - 1);
      assert calls[3..n] == calls[3..n - 1] + [calls[n - 1]];
    } else {
      ThreeEntries(h, r, window, slack);
    }
  }

  lemma ThreeEntries(h: seq<real>, r: seq<real>, window: real, slack: real)
    requires h == [0.0, slack + 1.0, slack + 2.0] && 0.0 <= slack
    requires r == [window + slack, window + slack, window + slack + 2.0]
    ensures FreshRereading(h, r, window) == [slack + 1.0]
  {
    assert h[..2] == [0.0, slack + 1.0] && r[..2] == [window + slack, window + slack];
    assert h[..2][..1] == [0.0] && r[..2][..1] == [window + slack];
    assert FreshRereading(h[..2][..1], r[..2][..1], window) == [];
  }

  // ---------- The contact form limiter ----------

  const CONTACT_WINDOW := 3600.0
  const CONTACT_MAX := 3

  /** The stored list of one address against all its accepted submissions. */
  ghost predicate Tracks(list: seq<real>, accepted: seq<real>, now: real) {
    && Ordered(accepted)
    && (forall i :: 0 <= i < |accepted| ==> accepted[i] <= now)
    && StandsFor(list, accepted, now, CONTACT_WINDOW)
    && Spaced(accepted, CONTACT_MAX, CONTACT_WINDOW)
  }

  lemma TracksPurged(list: seq<real>, accepted: seq<real>, now: real, later: real)
    requires Tracks(list, accepted, now) && now <= later
    ensures Tracks(Fresh(list, later, CONTACT_WINDOW), accepted, later)
    ensures var kept, n := Fresh(list, later, CONTACT_WINDOW), |accepted|;
      |kept| < CONTACT_MAX <==> n < CONTACT_MAX || later - accepted[n - CONTACT_MAX] >= CONTACT_WINDOW
  {
    forall u: real | later <= u
      ensures Fresh(Fresh(list, later, CONTACT_WINDOW), u, CONTACT_WINDOW) == Fresh(accepted, u, CONTACT_WINDOW)
    {
      FreshTwice(list, later, u, CONTACT_WINDOW);
    }
    FullWindow(accepted, later, CONTACT_WINDOW, CONTACT_MAX);
  }

  lemma TracksAccepted(list: seq<real>, accepted: seq<real>, now: real)
    requires Tracks(list, accepted, now) && |Fresh(accepted, now, CONTACT_WINDOW)| < CONTACT_MAX
    ensures Tracks(list + [now], accepted + [now], now)
  {
    SpacedAppend(accepted, now, CONTACT_MAX, CONTACT_WINDOW);
    forall u: real | now <= u
      ensures Fresh(list + [now], u, CONTACT_WINDOW) == Fresh(accepted + [now], u, CONTACT_WINDOW)
    {
      FreshConcat(list, [now], u, CONTACT_WINDOW);
      FreshConcat(accepted, [now], u, CONTACT_WINDOW);
    }
  }

  class ContactLimiter {
    const clock: Clock
    var hist: map<string, seq<real>>
    ghost var accepted: map<string, seq<real>>

    function Kept(ip: string): seq<real>
      reads this
    {
      if ip in hist then hist[ip] else []
    }

    ghost function Accepted(ip: string): seq<real>
      reads this
    {
      if ip in accepted then accepted[ip] else []
    }

    ghost predicate Valid()
      reads this, clock
    {
      forall ip: string :: Tracks(Kept(ip), Accepted(ip), clock.now)
    }

    constructor (clock: Clock)
      ensures Valid() && accepted == map[] && this.clock == clock
    {
      this.clock := clock;
      hist, accepted := map[], map[];
    }

    /** A submission is refused exactly when three accepted ones of the same address lie in the
        last hour; addresses never influence each other. */
    method Check(ip: string) returns (ok: bool)
      requires Valid()
      modifies this, clock
      ensures Valid() && old(clock.now) <= clock.now
      ensures var a := old(Accepted(ip));
        ok <==> |a| < 3 || clock.now - a[|a| - 3] >= 60.0 * 60.0
      ensures Accepted(ip) == if ok then old(Accepted(ip)) + [clock.now] else old(Accepted(ip))
      ensures forall other :: other != ip ==> Accepted(other) == old(Accepted(other)) && Kept(other) == old(Kept(other))
    {
      var now := clock.Time();
      ghost var a, before := Accepted(ip), old(clock.now);
      forall other
        ensures Tracks(Kept(other), Accepted(other), now)
      {
        assert Tracks(Kept(other), Accepted(other), before);
      }
      var list := Fresh(Kept(ip), now, CONTACT_WINDOW);
      TracksPurged(Kept(ip), a, before, now);
      hist := hist[ip := list];
      ok := |list| < CONTACT_MAX;
      if ok {
        assert Fresh(Kept(ip), now, CONTACT_WINDOW) == Fresh(a, now, CONTACT_WINDOW);
        FreshBound(list, now, CONTACT_WINDOW);
        TracksAccepted(list, a, now);
        hist := hist[ip := list + [now]];
        accepted := accepted[ip := a + [now]];
      }
      forall other
        ensures Tracks(Kept(other), Accepted(other), now)
      {
        if other != ip {
          assert Kept(other) == old(Kept(other)) && Accepted(other) == old(Accepted(other));
        }
      }
    }
  }
}
