/** Types and functions shared by several modules. */
module Prelude {
  datatype Option<+T> = None | Some(value: T)

  /** The colour of a conjunction. */
  datatype Risk = Red | Yellow | Green

  function Lookup<K, V>(rows: map<K, V>, key: K): Option<V> {
    if key in rows then Some(rows[key]) else None
  }

  ghost predicate Monotone(f: real -> real) {
    forall x: real, y: real :: x <= y ==> f(x) <= f(y)
  }

  function Times(x: real, y: real): real { x * y }

  lemma SameMaps<K, V>(p: map<K, V>, q: map<K, V>)
    requires forall key :: Lookup(p, key) == Lookup(q, key)
    ensures p == q
  {
    forall key
      ensures key in p <==> key in q
      ensures key in p ==> p[key] == q[key]
    {
      assert Lookup(p, key) == Lookup(q, key);
    }
  }

  function Sq(x: real): real { x * x }

  /** A square root: non-negative, and its square is the argument. */
  ghost predicate IsRoot(sqrt: real -> real) {
    forall x: real {:trigger Sq(sqrt(x))} :: x >= 0.0 ==> sqrt(x) >= 0.0 && Sq(sqrt(x)) == x
  }

  lemma ProductPositive(a: real, b: real, p: real)
    requires a > 0.0 && b > 0.0 && p == a * b
    ensures p > 0.0
  {}

  lemma QuotientPositive(x: real, y: real)
    requires x > 0.0 && y > 0.0
    ensures x / y > 0.0
  {
    var q := x / y;
    assert q * y == x;
    assert q > 0.0 by {
      if q <= 0.0 {
        NotPositive(q, y);
      }
    }
  }

  lemma NotPositive(q: real, y: real)
    requires q <= 0.0 && y > 0.0
    ensures q * y <= 0.0
  {}

  lemma SquareOrder(a: real, b: real)
    requires 0.0 <= a && 0.0 <= b && Sq(a) <= Sq(b)
    ensures a <= b
  {
    if a > b {
      assert (a - b) * (a + b) == Sq(a) - Sq(b);
      ProductPositive(a - b, a + b, Sq(a) - Sq(b));
    }
  }
}
