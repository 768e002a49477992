/** The re-notify gate of the watchlist alerts: who is mailed about which pair, and how often. */
module AlertGate {
  import opened Prelude
  import opened Clocks

  // ---------- The pair key ----------

  predicate Digits(s: string) {
    s != "" && forall i :: 0 <= i < |s| ==> '0' <= s[i] <= '9'
  }

  function IntOf(s: string): nat
    requires forall i :: 0 <= i < |s| ==> '0' <= s[i] <= '9'
  {
    if s == "" then 0 else IntOf(s[..|s| - 1]) * 10 + (s[|s| - 1] - '0') as nat
  }

  /** Strict lexicographic order by code point. */
  predicate Before(a: string, b: string) {
    b != "" && (a == "" || a[0] < b[0] || (a[0] == b[0] && Before(a[1..], b[1..])))
  }

  /** Catalogue numbers sorted by value and joined with ':' when both are numeric, else the names
      sorted as text and joined with '|'.  Sorting is stable, so equal values keep their order. */
  function PairKey(n1: string, n2: string, sat1: string, sat2: string): string {
    if Digits(n1) && Digits(n2) then
      if IntOf(n2) < IntOf(n1) then n2 + ":" + n1 else n1 + ":" + n2
    else
      if Before(sat2, sat1) then sat2 + "|" + sat1 else sat1 + "|" + sat2
  }

  lemma {:induction false} BeforeIsTotal(a: string, b: string)
    ensures a != b ==> (Before(a, b) <==> !Before(b, a))
  {
    if a != "" && b != "" && a[0] == b[0] {
      BeforeIsTotal(a[1..], b[1..]);
      assert a == [a[0]] + a[1..] && b == [b[0]] + b[1..];
    }
  }

  lemma {:induction false} NotBeforeItself(a: string)
    ensures !Before(a, a)
  {
    if a != "" {
      NotBeforeItself(a[1..]);
    }
  }

  /** A numeric key can be read in one way only. */
  lemma SplitAtColon(a: string, b: string, c: string, d: string)
    requires Digits(a) && Digits(b) && Digits(c) && Digits(d)
    requires a + ":" + b == c + ":" + d
    ensures a == c && b == d
  {
    var key := a + ":" + b;
    assert key[|a|] == ':' && key[|c|] == ':';
    assert forall i :: 0 <= i < |a| ==> key[i] == a[i];
    assert forall i :: 0 <= i < |c| ==> key[i] == c[i];
    assert a == key[..|a|] && c == key[..|c|];
    assert b == key[|a| + 1..] && d == key[|c| + 1..];
  }

  /** Swapping the objects keeps the key, except when two numeric identifiers spell the same
      number differently. */
  lemma PairKeyIgnoresOrderExactly(n1: string, n2: string, sat1: string, sat2: string)
    ensures PairKey(n1, n2, sat1, sat2) == PairKey(n2, n1, sat2, sat1)
      <==> !(Digits(n1) && Digits(n2) && n1 != n2 && IntOf(n1) == IntOf(n2))
  {
    if Digits(n1) && Digits(n2) {
      if n1 + ":" + n2 == n2 + ":" + n1 {
        SplitAtColon(n1, n2, n2, n1);
      }
    } else {
      BeforeIsTotal(sat1, sat2);
    }
  }

  /** "7" and "07" are one catalogue number with two keys. */
  lemma LeadingZeroSplitsAPair(sat1: string, sat2: string)
    ensures PairKey("7", "07", sat1, sat2) != PairKey("07", "7", sat2, sat1)
  {
    assert IntOf("7") == 7 by { assert "7"[..0] == ""; }
    assert IntOf("07") == 7 by { assert "07"[..1] == "0" && "0"[..0] == ""; }
    PairKeyIgnoresOrderExactly("7", "07", sat1, sat2);
  }

  /** Different numeric pairs never share a key. */
  lemma NumericKeysAreUnambiguous(n1: string, n2: string, m1: string, m2: string,
                                  a: string, b: string, c: string, d: string)
    requires Digits(n1) && Digits(n2) && Digits(m1) && Digits(m2)
    requires PairKey(n1, n2, a, b) == PairKey(m1, m2, c, d)
    ensures (n1 == m1 && n2 == m2) || (n1 == m2 && n2 == m1)
  {
    var x := if IntOf(n2) < IntOf(n1) then (n2, n1) else (n1, n2);
    var y := if IntOf(m2) < IntOf(m1) then (m2, m1) else (m1, m2);
    SplitAtColon(x.0, x.1, y.0, y.1);
  }

  /** The text key likewise, for names without the separator. */
  lemma SplitAtBar(a: string, b: string, c: string, d: string)
    requires '|' !in a && '|' !in c && a + "|" + b == c + "|" + d
    ensures a == c && b == d
  {
    var key := a + "|" + b;
    assert key[|a|] == '|' && key[|c|] == '|';
    assert forall i :: 0 <= i < |a| ==> key[i] == a[i];
    assert forall i :: 0 <= i < |c| ==> key[i] == c[i];
    assert a == key[..|a|] && c == key[..|c|];
    assert b == key[|a| + 1..] && d == key[|c| + 1..];
  }

  /** Different pairs of names never share a key, as long as no name has the separator in it. */
  lemma TextKeysAreUnambiguous(n1: string, n2: string, m1: string, m2: string,
                               a: string, b: string, c: string, d: string)
    requires !(Digits(n1) && Digits(n2)) && !(Digits(m1) && Digits(m2))
    requires '|' !in a && '|' !in b && '|' !in c && '|' !in d
    requires PairKey(n1, n2, a, b) == PairKey(m1, m2, c, d)
    ensures (a == c && b == d) || (a == d && b == c)
  {
    var x := if Before(b, a) then (b, a) else (a, b);
    var y := if Before(d, c) then (d, c) else (c, d);
    SplitAtBar(x.0, x.1, y.0, y.1);
  }

  /** A numeric key is never a text key. */
  lemma KeyKindsDiffer(n1: string, n2: string, m1: string, m2: string, a: string, b: string, c: string, d: string)
    requires Digits(n1) && Digits(n2) && !(Digits(m1) && Digits(m2))
    ensures PairKey(n1, n2, a, b) != PairKey(m1, m2, c, d)
  {
    var numeric, text := PairKey(n1, n2, a, b), PairKey(m1, m2, c, d);
    assert '|' !in numeric;
    var first := if Before(d, c) then d else c;
    assert text[|first|] == '|';
  }

  /** Either part of a key is one of the two objects, and the smaller one stands first: by value, or as text. */
  lemma KeyIsSorted(n1: string, n2: string, sat1: string, sat2: string) returns (x: string, y: string)
    ensures Digits(n1) && Digits(n2) ==>
      PairKey(n1, n2, sat1, sat2) == x + ":" + y && multiset{x, y} == multiset{n1, n2} &&
      Digits(x) && Digits(y) && IntOf(x) <= IntOf(y) && (IntOf(x) == IntOf(y) ==> x == n1 && y == n2)
    ensures !(Digits(n1) && Digits(n2)) ==>
      PairKey(n1, n2, sat1, sat2) == x + "|" + y && multiset{x, y} == multiset{sat1, sat2} && !Before(y, x)
  {
    BeforeIsTotal(sat1, sat2);
    NotBeforeItself(sat1);
    if Digits(n1) && Digits(n2) {
      x, y := if IntOf(n2) < IntOf(n1) then n2 else n1, if IntOf(n2) < IntOf(n1) then n1 else n2;
    } else {
      x, y := if Before(sat2, sat1) then sat2 else sat1, if Before(sat2, sat1) then sat1 else sat2;
    }
  }

  /** A missing number makes a text key. */
  lemma MissingNumber(n: string, sat1: string, sat2: string)
    ensures PairKey("", n, sat1, sat2) == PairKey(n, "", sat1, sat2) == PairKey("?", "?", sat1, sat2)
  {
    assert "?"[0] == '?';
    assert !Digits("?");
  }

  /** The decimal spelling of a number. */
  function Decimal(n: nat): string {
    if n < 10 then [(n as char) + '0'] else Decimal(n / 10) + [((n % 10) as char) + '0']
  }

  /** The value of a decimal spelling is the number. */
  lemma {:induction false} IntOfDecimal(n: nat)
    ensures Digits(Decimal(n)) && IntOf(Decimal(n)) == n
  {
    if n < 10 {
      assert Decimal(n)[..0] == "";
    } else {
      IntOfDecimal(n / 10);
      var s := Decimal(n / 10);
      assert Decimal(n)[..|s|] == s;
    }
  }

  /** Text order by the first difference, a proper prefix coming first. */
  lemma {:induction false} BeforeExactly(a: string, b: string)
    ensures Before(a, b) <==>
      exists i :: 0 <= i <= |a| && i < |b| && a[..i] == b[..i] && (i == |a| || a[i] < b[i])
  {
    if a != "" && b != "" && a[0] == b[0] {
      BeforeExactly(a[1..], b[1..]);
      if i :| 0 <= i <= |a| && i < |b| && a[..i] == b[..i] && (i == |a| || a[i] < b[i]) {
        assert i > 0;
        assert a[1..][..i - 1] == a[..i][1..] && b[1..][..i - 1] == b[..i][1..];
      }
      if Before(a, b) {
        var j :| 0 <= j <= |a[1..]| && j < |b[1..]| && a[1..][..j] == b[1..][..j] &&
                 (j == |a[1..]| || a[1..][j] < b[1..][j]);
        assert a[..j + 1] == [a[0]] + a[1..][..j] && b[..j + 1] == [b[0]] + b[1..][..j];
      }
    } else {
      PrefixStarts(a, b);
    }
  }

  lemma PrefixHead(a: string, b: string, i: nat)
    requires i <= |a| && i <= |b| && a[..i] == b[..i]
    ensures i > 0 ==> a[0] == b[0]
  {
    if i > 0 {
      assert a[..i][0] == b[..i][0];
    }
  }

  lemma PrefixStarts(a: string, b: string)
    requires a == "" || b == "" || a[0] != b[0]
    ensures (exists i :: 0 <= i <= |a| && i < |b| && a[..i] == b[..i] && (i == |a| || a[i] < b[i])) <==>
            b != "" && (a == "" || a[0] < b[0])
  {
    if i :| 0 <= i <= |a| && i < |b| && a[..i] == b[..i] && (i == |a| || a[i] < b[i]) {
      PrefixHead(a, b, i);
    }
    if b != "" && (a == "" || a[0] < b[0]) {
      assert a[..0] == b[..0];
    }
  }

  // ---------- Alerts and their history ----------

  const DAY := 86400.0
  const ESCALATE := 1.5

  datatype Alert = Alert(email: string, key: string, at: real, pc: real)

  /** The alerts one recipient got about one pair, oldest first. */
  function About(log: seq<Alert>, email: string, key: string): seq<Alert> {
    if log == [] then []
    else
      var rest, a := About(log[..|log| - 1], email, key), log[|log| - 1];
      if a.email == email && a.key == key then rest + [a] else rest
  }

  /** Whether an alert is due after the alerts `p`: none yet, an escalation, or a day gone by. */
  predicate Due(p: seq<Alert>, pc: real, now: real) {
    p == [] ||
    var last := p[|p| - 1];
    (last.pc != 0.0 && pc != 0.0 && pc >= last.pc * ESCALATE) || now - last.at > DAY
  }

  /** No alert is due exactly when one was sent within the last 24 hours and the probability has not risen by half
      since, or one of the two probabilities is zero. */
  lemma NotDueExactly(p: seq<Alert>, pc: real, now: real)
    ensures !Due(p, pc, now) <==>
      p != [] && var last := p[|p| - 1];
                 now <= last.at + 24.0 * 3600.0 && (last.pc == 0.0 || pc == 0.0 || 2.0 * pc < 3.0 * last.pc)
  {}

  /** The next alert comes more than a day later or escalates. */
  predicate Follows(a: Alert, b: Alert) {
    a.at <= b.at && (b.at - a.at > DAY || (a.pc != 0.0 && b.pc >= a.pc * ESCALATE))
  }

  ghost predicate Gated(p: seq<Alert>) {
    forall i, j :: 0 <= i && j == i + 1 < |p| ==> Follows(p[i], p[j])
  }

  /** pc * 1.5^n, the least probability after n escalations. */
  function Escalated(pc: real, n: nat): real {
    if n == 0 then pc else Escalated(pc, n - 1) * ESCALATE
  }

  lemma EscalatedGrows(pc: real, n: nat)
    ensures Escalated(pc, 0) == pc && 2.0 * Escalated(pc, n + 1) == 3.0 * Escalated(pc, n)
  {}

  lemma {:induction false} GatedOrdered(p: seq<Alert>, i: nat, j: nat)
    requires Gated(p) && i <= j < |p|
    ensures p[i].at <= p[j].at
  {
    if i < j {
      GatedOrdered(p, i, j - 1);
      assert Follows(p[j - 1], p[j]);
    }
  }

  /** Of the alerts of one recipient and pair inside any 24 hours, each is 1.5 times the one before:
      n alerts starting at probability pc > 0 need pc * 1.5^(n-1) <= 1, and after one at 0 none follows. */
  lemma {:induction false} AlertBound(p: seq<Alert>, i: nat, j: nat)
    requires Gated(p) && i <= j < |p| && p[j].at - p[i].at <= 24.0 * 3600.0
    requires forall a :: a in p ==> 0.0 <= a.pc <= 1.0
    ensures Escalated(p[i].pc, j - i) <= p[j].pc <= 1.0
    ensures p[i].pc == 0.0 ==> i == j
  {
    assert p[i] in p && p[j] in p;
    if i < j {
      assert p[j - 1] in p;
      GatedOrdered(p, i, j - 1);
      assert Follows(p[j - 1], p[j]) && p[j].at - p[j - 1].at <= DAY;
      AlertBound(p, i, j - 1);
    }
  }

  // ---------- The notifier ----------

  datatype Conjunction = Conjunction(risk: Risk, norad1: string, norad2: string, sat1: string, sat2: string, pc: real) {
    function Key(): string {
      PairKey(norad1, norad2, sat1, sat2)
    }
  }
  datatype Sent = Sent(at: real, pc: Option<real>)

  function Owners(watchlist: map<string, seq<string>>, norad: string): set<string> {
    if norad in watchlist then set e | e in watchlist[norad] else {}
  }

  function Targets(watchlist: map<string, seq<string>>, c: Conjunction): set<string> {
    Owners(watchlist, c.norad1) + Owners(watchlist, c.norad2)
  }

  /** The owners of either object, and nobody else, are mailed. */
  lemma TargetsExactly(watchlist: map<string, seq<string>>, c: Conjunction, e: string)
    ensures e in Targets(watchlist, c) <==>
      exists norad :: norad in watchlist && (norad == c.norad1 || norad == c.norad2) && e in watchlist[norad]
  {}

  /** A conjunction's key is made of its two numbers when both are numeric, else of its two names. */
  lemma KeyOfConjunction(c: Conjunction) returns (x: string, y: string)
    ensures if Digits(c.norad1) && Digits(c.norad2) then
        c.Key() == x + ":" + y && multiset{x, y} == multiset{c.norad1, c.norad2} && IntOf(x) <= IntOf(y)
        && (IntOf(x) == IntOf(y) ==> x == c.norad1 && y == c.norad2)
      else c.Key() == x + "|" + y && multiset{x, y} == multiset{c.sat1, c.sat2} && !Before(y, x)
  {
    x, y := KeyIsSorted(c.norad1, c.norad2, c.sat1, c.sat2);
  }

  ghost predicate Justified(a: Alert, conjunctions: seq<Conjunction>, watchlist: map<string, seq<string>>) {
    exists c :: c in conjunctions && c.risk == Red && a.email in Targets(watchlist, c)
                && a.key == c.Key() && a.pc == c.pc
  }

  ghost predicate AllJustified(log: seq<Alert>, n: nat, conjunctions: seq<Conjunction>,
                               watchlist: map<string, seq<string>>) {
    forall i :: n <= i < |log| ==> Justified(log[i], conjunctions, watchlist)
  }

  ghost predicate AllAbout(log: seq<Alert>, n: nat, c: Conjunction, owners: set<string>) {
    forall i :: n <= i < |log| ==> log[i].email in owners && log[i].key == c.Key() && log[i].pc == c.pc
  }

  lemma AllJustifiedStep(log: seq<Alert>, longer: seq<Alert>, n: nat, c: Conjunction,
                         conjunctions: seq<Conjunction>, watchlist: map<string, seq<string>>)
    requires log <= longer && AllJustified(log, n, conjunctions, watchlist)
    requires c in conjunctions && c.risk == Red
    requires AllAbout(longer, |log|, c, Targets(watchlist, c))
    ensures AllJustified(longer, n, conjunctions, watchlist)
  {
    forall i | n <= i < |longer| ensures Justified(longer[i], conjunctions, watchlist) {
      if i < |log| {
        assert longer[i] == log[i];
      }
    }
  }

  /** A recipient has been alerted about the pair since `start`, or no alert was due then. */
  ghost predicate Informed(log: seq<Alert>, email: string, key: string, pc: real, start: real) {
    var p := About(log, email, key);
    p != [] && (p[|p| - 1].at >= start || !Due(p, pc, start))
  }

  ghost predicate Since(log: seq<Alert>, n: nat, start: real) {
    n <= |log| && forall i :: n <= i < |log| ==> log[i].at >= start
  }

  /** Every owner of a RED conjunction among the first n who can be mailed is informed about it. */
  ghost predicate AllInformed(log: seq<Alert>, conjunctions: seq<Conjunction>, n: nat,
                              watchlist: map<string, seq<string>>, delivers: (nat, string) -> bool, start: real)
    requires n <= |conjunctions|
  {
    forall m: nat, e | m < n && conjunctions[m].risk == Red
      && e in Targets(watchlist, conjunctions[m]) && delivers(m, e) ::
      Informed(log, e, conjunctions[m].Key(), conjunctions[m].pc, start)
  }

  /** The alerts of one recipient and pair are exactly those of the log with that recipient and key, in the log's
      order. */
  lemma {:induction false} AboutExactly(log: seq<Alert>, more: seq<Alert>, email: string, key: string)
    ensures About(log + more, email, key) == About(log, email, key) + About(more, email, key)
    ensures forall a :: a in About(log, email, key) ==> a in log && a.email == email && a.key == key
  {
    AboutMembers(log, email, key);
    if more == [] {
      assert log + more == log;
    } else {
      var init, last := more[..|more| - 1], more[|more| - 1];
      AboutExactly(log, init, email, key);
      AboutLast(log, more, email, key);
    }
  }

  lemma AboutLast(log: seq<Alert>, more: seq<Alert>, email: string, key: string)
    requires more != []
    ensures var init, last := more[..|more| - 1], more[|more| - 1];
      About(log + more, email, key) ==
      if last.email == email && last.key == key then About(log + init, email, key) + [last]
      else About(log + init, email, key)
  {
    var init, last := more[..|more| - 1], more[|more| - 1];
    AboutAppend(log + init, last, email, key);
    assert log + more == (log + init) + [last];
  }

  lemma AboutOne(a: Alert)
    ensures About([a], a.email, a.key) == [a]
  {
    AboutAppend([], a, a.email, a.key);
    assert [] + [a] == [a];
  }

  lemma {:induction false} AboutMembers(log: seq<Alert>, email: string, key: string)
    ensures forall a :: a in About(log, email, key) ==> a in log && a.email == email && a.key == key
  {
    if log != [] {
      AboutMembers(log[..|log| - 1], email, key);
      assert log == log[..|log| - 1] + [log[|log| - 1]];
    }
  }

  lemma AboutAppend(log: seq<Alert>, a: Alert, email: string, key: string)
    ensures About(log + [a], email, key) ==
            if a.email == email && a.key == key then About(log, email, key) + [a] else About(log, email, key)
  {
    assert (log + [a])[..|log + [a]| - 1] == log;
  }

  /** Later alerts leave nobody uninformed. */
  lemma {:induction false} InformedStays(log: seq<Alert>, longer: seq<Alert>, email: string, key: string,
                                         pc: real, start: real)
    requires log <= longer && Since(longer, |log|, start)
    requires Informed(log, email, key, pc, start)
    ensures Informed(longer, email, key, pc, start)
  {
    if |log| < |longer| {
      InformedStays(log, longer[..|longer| - 1], email, key, pc, start);
    } else {
      assert log == longer;
    }
  }

  lemma InformedEarlier(log: seq<Alert>, email: string, key: string, pc: real, start: real, later: real)
    requires start <= later && Informed(log, email, key, pc, later)
    ensures Informed(log, email, key, pc, start)
  {}

  lemma AllInformedStep(log: seq<Alert>, longer: seq<Alert>, conjunctions: seq<Conjunction>, n: nat,
                        watchlist: map<string, seq<string>>, delivers: (nat, string) -> bool,
                        start: real, later: real)
    requires log <= longer && Since(longer, |log|, start) && n < |conjunctions| && start <= later
    requires AllInformed(log, conjunctions, n, watchlist, delivers, start)
    requires conjunctions[n].risk == Red
    requires forall e :: e in Targets(watchlist, conjunctions[n]) && delivers(n, e) ==>
               Informed(longer, e, conjunctions[n].Key(), conjunctions[n].pc, later)
    ensures AllInformed(longer, conjunctions, n + 1, watchlist, delivers, start)
  {
    forall m: nat, e | m < n + 1 && conjunctions[m].risk == Red
      && e in Targets(watchlist, conjunctions[m]) && delivers(m, e)
      ensures Informed(longer, e, conjunctions[m].Key(), conjunctions[m].pc, start)
    {
      var c := conjunctions[m];
      if m < n {
        InformedStays(log, longer, e, c.Key(), c.pc, start);
      }
    }
  }

  lemma GatedAppend(p: seq<Alert>, a: Alert, now: real)
    requires Gated(p) && Due(p, a.pc, now) && now <= a.at
    requires p != [] ==> p[|p| - 1].at <= now
    ensures Gated(p + [a])
  {}

  /** The row of a recipient and pair records exactly their last alert. */
  ghost predicate RowFits(p: seq<Alert>, row: Option<Sent>, now: real) {
    && Gated(p)
    && (p == [] <==> row.None?)
    && (p != [] ==> var last := p[|p| - 1];
          last.at <= now && row == Some(Sent(last.at, if last.pc != 0.0 then Some(last.pc) else None)))
  }

  ghost predicate TableFits(table: map<(string, string), Sent>, log: seq<Alert>, now: real) {
    forall email, key :: RowFits(About(log, email, key), Lookup(table, (email, key)), now)
  }

  function SentRow(now: real, pc: real): Sent {
    Sent(now, if pc != 0.0 then Some(pc) else None)
  }

  lemma RowAppend(p: seq<Alert>, row: Option<Sent>, a: Alert, before: real)
    requires RowFits(p, row, before) && Due(p, a.pc, before) && before <= a.at
    ensures RowFits(p + [a], Some(SentRow(a.at, a.pc)), a.at)
  {
    GatedAppend(p, a, before);
    assert (p + [a])[|p + [a]| - 1] == a;
  }

  lemma RowLater(p: seq<Alert>, row: Option<Sent>, before: real, now: real)
    requires RowFits(p, row, before) && before <= now
    ensures RowFits(p, row, now)
  {}

  lemma RecordKeepsFit(table: map<(string, string), Sent>, log: seq<Alert>, a: Alert, before: real)
    requires TableFits(table, log, before) && before <= a.at
    requires Due(About(log, a.email, a.key), a.pc, before)
    ensures TableFits(table[(a.email, a.key) := SentRow(a.at, a.pc)], log + [a], a.at)
  {
    var after := table[(a.email, a.key) := SentRow(a.at, a.pc)];
    forall e, k
      ensures RowFits(About(log + [a], e, k), Lookup(after, (e, k)), a.at)
    {
      var p, row := About(log, e, k), Lookup(table, (e, k));
      assert RowFits(p, row, before);
      AboutAppend(log, a, e, k);
      if e == a.email && k == a.key {
        RowAppend(p, row, a, before);
      } else {
        assert Lookup(after, (e, k)) == row;
        RowLater(p, row, before, a.at);
      }
    }
  }

  /** The notifier with its alert table, which is reachable throughout. */
  class Notifier {
    const clock: Clock
    var table: map<(string, string), Sent>
    ghost var log: seq<Alert>

    ghost predicate Valid()
      reads this, clock
    {
      TableFits(table, log, clock.now)
    }

    constructor (clock: Clock)
      ensures Valid() && log == [] && this.clock == clock
    {
      this.clock := clock;
      table := map[];
      log := [];
    }

    /** Over every run: the alerts i..j of one recipient and pair, when they fit in 24 hours, obey
        the escalation bound. */
    lemma AlertsInADayAreBounded(email: string, key: string, i: nat, j: nat)
      requires Valid()
      requires i <= j < |About(log, email, key)|
      requires About(log, email, key)[j].at - About(log, email, key)[i].at <= DAY
      requires forall a :: a in About(log, email, key) ==> 0.0 <= a.pc <= 1.0
      ensures Escalated(About(log, email, key)[i].pc, j - i) <= 1.0
      ensures About(log, email, key)[i].pc == 0.0 ==> i == j
    {
      assert RowFits(About(log, email, key), Lookup(table, (email, key)), clock.now);
      AlertBound(About(log, email, key), i, j);
    }

    method ShouldSend(email: string, key: string, pc: real) returns (send: bool, now: real)
      requires Valid()
      modifies clock
      ensures Valid() && old(clock.now) <= now == clock.now
      ensures send <==> Due(About(log, email, key), pc, now)
    {
      now := clock.Time();
      assert RowFits(About(log, email, key), Lookup(table, (email, key)), old(clock.now));
      if Lookup(table, (email, key)).None? {
        return true, now;
      }
      var row := Lookup(table, (email, key)).value;
      if row.pc.Some? && row.pc.value != 0.0 && pc != 0.0 && pc >= row.pc.value * ESCALATE {
        return true, now;
      }
      return now - row.at > DAY, now;
    }

    method RecordAlertSent(email: string, key: string, pc: real)
      requires Valid() && Due(About(log, email, key), pc, clock.now)
      modifies this, clock
      ensures Valid() && old(clock.now) <= clock.now
      ensures log == old(log) + [Alert(email, key, clock.now, pc)]
    {
      var now := clock.Time();
      RecordKeepsFit(table, log, Alert(email, key, now, pc), old(clock.now));
      table := table[(email, key) := SentRow(now, pc)];
      log := log + [Alert(email, key, now, pc)];
    }

    /** One recipient of one conjunction: an alert goes out exactly when it is due and the mail
        server takes it; only then is it recorded. */
    method NotifyOne(email: string, c: Conjunction, delivers: bool) returns (sent: bool, now: real)
      requires Valid()
      modifies this, clock
      ensures Valid() && old(clock.now) <= now <= clock.now
      ensures sent <==> delivers && Due(old(About(log, email, c.Key())), c.pc, now)
      ensures log == old(log) + if sent then [Alert(email, c.Key(), clock.now, c.pc)] else []
      ensures delivers ==> Informed(log, email, c.Key(), c.pc, old(clock.now))
    {
      var due;
      due, now := ShouldSend(email, c.Key(), c.pc);
      sent := due && delivers;
      if sent {
        ghost var before := log;
        RecordAlertSent(email, c.Key(), c.pc);
        AboutAppend(before, log[|log| - 1], email, c.Key());
      }
    }

    /** Only RED conjunctions alert, only to owners of one of their objects; every such owner the
        server accepts mail for ends up informed about the pair, and `sent` counts the mails. */
    method NotifyWatchlistOnly(conjunctions: seq<Conjunction>, watchlist: map<string, seq<string>>,
                               delivers: (nat, string) -> bool) returns (sent: nat)
      requires Valid()
      modifies this, clock
      ensures Valid() && old(clock.now) <= clock.now
      ensures old(log) <= log && |log| == |old(log)| + sent
      ensures AllJustified(log, |old(log)|, conjunctions, watchlist)
      ensures AllInformed(log, conjunctions, |conjunctions|, watchlist, delivers, old(clock.now))
    {
      sent := 0;
      for n := 0 to |conjunctions|
        invariant Valid() && old(clock.now) <= clock.now
        invariant old(log) <= log && |log| == |old(log)| + sent
        invariant AllJustified(log, |old(log)|, conjunctions, watchlist)
        invariant AllInformed(log, conjunctions, n, watchlist, delivers, old(clock.now))
      {
        var c := conjunctions[n];
        if c.risk == Red {
          ghost var before, start := log, clock.now;
          var k := NotifyOwners(c, Targets(watchlist, c), e => delivers(n, e));
          AllInformedStep(before, log, conjunctions, n, watchlist, delivers, old(clock.now), start);
          AllJustifiedStep(before, log, |old(log)|, c, conjunctions, watchlist);
          sent := sent + k;
        }
      }
    }

    /** Every owner of one conjunction, in any order. */
    method NotifyOwners(c: Conjunction, owners: set<string>, delivers: string -> bool) returns (sent: nat)
      requires Valid()
      modifies this, clock
      ensures Valid() && old(clock.now) <= clock.now
      ensures old(log) <= log && |log| == |old(log)| + sent
      ensures Since(log, |old(log)|, old(clock.now)) && AllAbout(log, |old(log)|, c, owners)
      ensures forall e :: e in owners && delivers(e) ==> Informed(log, e, c.Key(), c.pc, old(clock.now))
    {
      sent := 0;
      var remaining := owners;
      while remaining != {}
        invariant remaining <= owners && Valid() && old(clock.now) <= clock.now
        invariant old(log) <= log && |log| == |old(log)| + sent
        invariant Since(log, |old(log)|, old(clock.now)) && AllAbout(log, |old(log)|, c, owners)
        invariant forall e :: e in owners - remaining && delivers(e) ==> Informed(log, e, c.Key(), c.pc, old(clock.now))
      {
        var email :| email in remaining;
        ghost var before, later := log, clock.now;
        var ok, _ := NotifyOne(email, c, delivers(email));
        forall e | e in owners - (remaining - {email}) && delivers(e)
          ensures Informed(log, e, c.Key(), c.pc, old(clock.now))
        {
          if e == email {
            InformedEarlier(log, e, c.Key(), c.pc, old(clock.now), later);
          } else {
            InformedStays(before, log, e, c.Key(), c.pc, old(clock.now));
          }
        }
        sent := sent + if ok then 1 else 0;
        remaining := remaining - {email};
      }
    }
  }
}
