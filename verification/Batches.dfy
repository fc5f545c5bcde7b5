/** Sorted, limited query results. */
module Batches {
  import opened Prelude

  // ---------------------------------------------------------------------------
  // By a strict order: the order decides the result
  // ---------------------------------------------------------------------------

  type Order = (nat, nat) -> bool

  ghost predicate StrictOrder(pool: set<nat>, before: Order) {
    && (forall a, b :: a in pool && b in pool ==> a == b || before(a, b) || before(b, a))
    && (forall a, b :: a in pool && b in pool ==> !(before(a, b) && before(b, a)))
    && (forall a, b, c :: a in pool && b in pool && c in pool && before(a, b) && before(b, c) ==> before(a, c))
  }

  /** `q` is the pool sorted by `before`, cut off at `cap`. */
  ghost predicate First(pool: set<nat>, before: Order, cap: nat, q: seq<nat>) {
    && |q| == Min(cap, |pool|)
    && (forall k :: 0 <= k < |q| ==> q[k] in pool)
    && (forall j, k :: 0 <= j < k < |q| ==> before(q[j], q[k]))
    && (forall k, y :: 0 <= k < |q| && y in pool && y !in q ==> before(q[k], y))
  }

  lemma FirstAgreesAt(pool: set<nat>, before: Order, cap: nat, q: seq<nat>, r: seq<nat>, k: nat)
    requires StrictOrder(pool, before) && First(pool, before, cap, q) && First(pool, before, cap, r)
    requires k < |q| && forall j :: 0 <= j < k ==> q[j] == r[j]
    ensures !before(q[k], r[k])
  {
    forall j | 0 <= j < |r|
      ensures before(q[k], r[k]) ==> r[j] != q[k]
    {
      assert j > k ==> before(r[k], r[j]);
      assert j < k ==> before(q[j], q[k]) && q[j] in pool;
    }
  }

  lemma {:induction false} FirstIsUnique(pool: set<nat>, before: Order, cap: nat, q: seq<nat>, r: seq<nat>, n: nat)
    requires StrictOrder(pool, before) && First(pool, before, cap, q) && First(pool, before, cap, r) && n <= |q|
    ensures |q| == |r| && forall j :: 0 <= j < n ==> q[j] == r[j]
  {
    if n > 0 {
      FirstIsUnique(pool, before, cap, q, r, n - 1);
      FirstAgreesAt(pool, before, cap, q, r, n - 1);
      FirstAgreesAt(pool, before, cap, r, q, n - 1);
    }
  }

  lemma FirstIsDistinct(pool: set<nat>, before: Order, cap: nat, q: seq<nat>)
    requires First(pool, before, cap, q) && StrictOrder(pool, before)
    ensures Distinct(q)
  {
    forall j, k | 0 <= j < k < |q|
      ensures q[j] != q[k]
    {
      assert before(q[j], q[k]) && q[j] in pool;
    }
  }

  /** What comes before a listed element is listed too. */
  lemma FirstIsClosed(pool: set<nat>, before: Order, cap: nat, q: seq<nat>, k: nat, y: nat)
    requires StrictOrder(pool, before) && First(pool, before, cap, q) && k < |q|
    requires y in pool && before(y, q[k])
    ensures y in q
  {
  }

  /** `ORDER BY before LIMIT cap`. */
  method Take(pool: set<nat>, before: Order, cap: nat) returns (q: seq<nat>)
    requires StrictOrder(pool, before)
    ensures First(pool, before, cap, q)
  {
    q := [];
    var left := pool;
    while left != {} && |q| < cap
      invariant |q| <= cap && |q| + |left| == |pool| && left <= pool
      invariant forall k :: 0 <= k < |q| ==> q[k] in pool && q[k] !in left
      invariant forall x :: x in pool ==> x in left || x in q
      invariant forall j, k :: 0 <= j < k < |q| ==> before(q[j], q[k])
      invariant forall k, y :: 0 <= k < |q| && y in left ==> before(q[k], y)
      decreases |left|
    {
      var x := Leading(left, before);
      q := q + [x];
      left := left - {x};
    }
  }

  method Leading(pool: set<nat>, before: Order) returns (x: nat)
    requires pool != {} && StrictOrder(pool, before)
    ensures x in pool && forall y :: y in pool && y != x ==> before(x, y)
  {
    x :| x in pool;
    var rest := pool - {x};
    while rest != {}
      invariant x in pool && rest <= pool && x !in rest
      invariant forall y :: y in pool && y !in rest && y != x ==> before(x, y)
      decreases |rest|
    {
      var y :| y in rest;
      if before(y, x) {
        x := y;
      }
      rest := rest - {y};
    }
  }

  // ---------------------------------------------------------------------------
  // By a key: ties may come in any order
  // ---------------------------------------------------------------------------

  /** `q` is what `ORDER BY key LIMIT cap` may return from `s`. */
  ghost predicate Batch(s: set<nat>, key: nat -> int, cap: nat, q: seq<nat>) {
    && |q| == Min(cap, |s|)
    && (forall i :: 0 <= i < |q| ==> q[i] in s)
    && (forall i, j :: 0 <= i < j < |q| ==> q[i] != q[j] && key(q[i]) <= key(q[j]))
    && (forall i, y :: 0 <= i < |q| && y in s && y !in q ==> key(q[i]) <= key(y))
  }

  /** One way to break ties. */
  function ByKey(key: nat -> int): Order {
    (a: nat, b: nat) => key(a) < key(b) || (key(a) == key(b) && a < b)
  }

  lemma ByKeyIsStrict(s: set<nat>, key: nat -> int)
    ensures StrictOrder(s, ByKey(key))
  {
  }

  lemma FirstIsBatch(s: set<nat>, key: nat -> int, cap: nat, q: seq<nat>)
    requires First(s, ByKey(key), cap, q)
    ensures Batch(s, key, cap, q)
  {
    forall i, j | 0 <= i < j < |q|
      ensures q[i] != q[j] && key(q[i]) <= key(q[j])
    {
      assert ByKey(key)(q[i], q[j]);
    }
    forall i, y | 0 <= i < |q| && y in s && y !in q
      ensures key(q[i]) <= key(y)
    {
      assert ByKey(key)(q[i], y);
    }
  }

  /** `ORDER BY key LIMIT cap`. */
  method Smallest(s: set<nat>, key: nat -> int, cap: nat) returns (q: seq<nat>)
    ensures Batch(s, key, cap, q)
  {
    ByKeyIsStrict(s, key);
    q := Take(s, ByKey(key), cap);
    FirstIsBatch(s, key, cap, q);
  }
}
