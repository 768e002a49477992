/** The stable sort that Python's list.sort and sorted perform, with the facts its callers use. */
module Sorting {
  ghost predicate TotalPreorder<T(!new)>(le: (T, T) -> bool) {
    && (forall a, b :: le(a, b) || le(b, a))
    && (forall a, b, c :: le(a, b) && le(b, c) ==> le(a, c))
  }

  /** Places x after everything not greater than it. */
  function Insert<T>(s: seq<T>, x: T, le: (T, T) -> bool): seq<T> {
    if s == [] || le(s[|s| - 1], x) then s + [x]
    else Insert(s[..|s| - 1], x, le) + [s[|s| - 1]]
  }

  function SortBy<T>(s: seq<T>, le: (T, T) -> bool): seq<T> {
    if s == [] then [] else Insert(SortBy(s[..|s| - 1], le), s[|s| - 1], le)
  }

  ghost predicate SortedBy<T>(s: seq<T>, le: (T, T) -> bool) {
    forall i, j :: 0 <= i <= j < |s| ==> le(s[i], s[j])
  }

  /** Number of entries satisfying p. */
  function CountIf<T>(s: seq<T>, p: T -> bool): nat {
    if s == [] then 0 else CountIf(s[..|s| - 1], p) + if p(s[|s| - 1]) then 1 else 0
  }

  lemma {:induction false} CountIfConcat<T>(a: seq<T>, b: seq<T>, p: T -> bool)
    ensures CountIf(a + b, p) == CountIf(a, p) + CountIf(b, p)
  {
    if b == [] {
      assert a + b == a;
    } else {
      assert (a + b)[..|a + b| - 1] == a + b[..|b| - 1];
      CountIfConcat(a, b[..|b| - 1], p);
    }
  }

  lemma {:induction false} InsertContents<T>(s: seq<T>, x: T, le: (T, T) -> bool)
    ensures multiset(Insert(s, x, le)) == multiset(s) + multiset{x}
    ensures forall y :: y in Insert(s, x, le) ==> y in s || y == x
  {
    if s != [] && !le(s[|s| - 1], x) {
      InsertContents(s[..|s| - 1], x, le);
      assert s == s[..|s| - 1] + [s[|s| - 1]];
    }
  }

  lemma {:induction false} InsertFacts<T(!new)>(s: seq<T>, x: T, le: (T, T) -> bool)
    requires TotalPreorder(le) && SortedBy(s, le)
    ensures SortedBy(Insert(s, x, le), le)
    ensures multiset(Insert(s, x, le)) == multiset(s) + multiset{x}
  {
    InsertContents(s, x, le);
    if s == [] || le(s[|s| - 1], x) {
      forall i | 0 <= i < |s|
        ensures le(s[i], x)
      {
        assert le(s[i], s[|s| - 1]);
      }
    } else {
      var init, last := s[..|s| - 1], s[|s| - 1];
      InsertFacts(init, x, le);
      InsertContents(init, x, le);
      var t := Insert(init, x, le);
      forall i | 0 <= i < |t|
        ensures le(t[i], last)
      {
        assert t[i] in t;
        if t[i] in init {
          var k :| 0 <= k < |init| && init[k] == t[i];
          assert le(s[k], s[|s| - 1]);
        }
      }
    }
  }

  lemma {:induction false} InsertLength<T>(s: seq<T>, x: T, le: (T, T) -> bool)
    ensures |Insert(s, x, le)| == |s| + 1
  {
    if s != [] && !le(s[|s| - 1], x) {
      InsertLength(s[..|s| - 1], x, le);
    }
  }

  /** The result is ordered and a permutation of the input. */
  lemma {:induction false} SortFacts<T(!new)>(s: seq<T>, le: (T, T) -> bool)
    requires TotalPreorder(le)
    ensures SortedBy(SortBy(s, le), le)
    ensures multiset(SortBy(s, le)) == multiset(s)
    ensures |SortBy(s, le)| == |s|
  {
    if s != [] {
      var init, last := s[..|s| - 1], s[|s| - 1];
      SortFacts(init, le);
      InsertFacts(SortBy(init, le), last, le);
      InsertLength(SortBy(init, le), last, le);
      assert s == init + [last];
    }
  }

  lemma SortMembers<T(!new)>(s: seq<T>, le: (T, T) -> bool, x: T)
    requires TotalPreorder(le)
    ensures x in SortBy(s, le) <==> x in s
  {
    SortFacts(s, le);
    assert x in multiset(SortBy(s, le)) <==> x in multiset(s);
  }

  /** The entries tied with x, in order. */
  function Tied<T>(s: seq<T>, x: T, le: (T, T) -> bool): seq<T> {
    if s == [] then []
    else Tied(s[..|s| - 1], x, le) + if le(s[|s| - 1], x) && le(x, s[|s| - 1]) then [s[|s| - 1]] else []
  }

  lemma {:induction false} InsertStable<T(!new)>(s: seq<T>, y: T, x: T, le: (T, T) -> bool)
    requires TotalPreorder(le) && SortedBy(s, le)
    ensures Tied(Insert(s, y, le), x, le) == Tied(s, x, le) + if le(y, x) && le(x, y) then [y] else []
  {
    if s == [] || le(s[|s| - 1], y) {
      assert (s + [y])[..|s + [y]| - 1] == s;
    } else {
      var init, last := s[..|s| - 1], s[|s| - 1];
      InsertStable(init, y, x, le);
      var t := Insert(init, y, le);
      assert (t + [last])[..|t + [last]| - 1] == t;
    }
  }

  /** Entries with equal keys keep their order. */
  lemma {:induction false} SortStable<T(!new)>(s: seq<T>, x: T, le: (T, T) -> bool)
    requires TotalPreorder(le)
    ensures Tied(SortBy(s, le), x, le) == Tied(s, x, le)
  {
    if s != [] {
      SortStable(s[..|s| - 1], x, le);
      SortFacts(s[..|s| - 1], le);
      InsertStable(SortBy(s[..|s| - 1], le), s[|s| - 1], x, le);
    }
  }

  lemma {:induction false} InsertCount<T>(s: seq<T>, x: T, le: (T, T) -> bool, p: T -> bool)
    ensures CountIf(Insert(s, x, le), p) == CountIf(s, p) + if p(x) then 1 else 0
  {
    if s == [] || le(s[|s| - 1], x) {
      assert (s + [x])[..|s + [x]| - 1] == s;
    } else {
      InsertCount(s[..|s| - 1], x, le, p);
      var t := Insert(s[..|s| - 1], x, le);
      assert (t + [s[|s| - 1]])[..|t + [s[|s| - 1]]| - 1] == t;
    }
  }

  lemma {:induction false} SortCount<T>(s: seq<T>, le: (T, T) -> bool, p: T -> bool)
    ensures CountIf(SortBy(s, le), p) == CountIf(s, p)
  {
    if s != [] {
      SortCount(s[..|s| - 1], le, p);
      InsertCount(SortBy(s[..|s| - 1], le), s[|s| - 1], le, p);
    }
  }
}
