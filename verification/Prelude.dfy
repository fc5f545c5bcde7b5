/** Small shared vocabulary: optional values, results, and facts about finite sets. */
module Prelude {

  datatype Option<+T> = None | Some(value: T)

  datatype Result<+T, +E> = Ok(value: T) | Err(error: E)

  function Min(a: int, b: int): int {
    if a <= b then a else b
  }

  function Max(a: int, b: int): int {
    if a <= b then b else a
  }

  // ---------------------------------------------------------------------------
  // Sequences without repeats, and sizes of finite sets
  // ---------------------------------------------------------------------------

  ghost predicate Distinct<T>(q: seq<T>) {
    forall i, j :: 0 <= i < j < |q| ==> q[i] != q[j]
  }

  function Elements<T(==)>(q: seq<T>): set<T> {
    set x | x in q
  }

  lemma {:induction false} DistinctSize<T>(q: seq<T>)
    requires Distinct(q)
    ensures |Elements(q)| == |q|
  {
    if q != [] {
      var init, last := q[..|q| - 1], q[|q| - 1];
      DistinctSize(init);
      assert last !in init;
      assert Elements(q) == Elements(init) + {last};
    }
  }

  lemma SubsetSizes<T>(a: set<T>, b: set<T>)
    requires a <= b
    ensures |a| <= |b| && (|a| == |b| ==> a == b)
  {
    assert b == a + (b - a);
  }

  /** The elements of `part` not already there, appended in order. */
  function Merge<T(==)>(q: seq<T>, part: seq<T>): (r: seq<T>)
    ensures |q| <= |r| <= |q| + |part|
  {
    if part == [] then q
    else
      var r := Merge(q, part[..|part| - 1]);
      if part[|part| - 1] in r then r else r + [part[|part| - 1]]
  }

  lemma {:induction false} MergeIs<T>(q: seq<T>, part: seq<T>)
    requires Distinct(q)
    ensures Distinct(Merge(q, part))
    ensures forall x :: x in Merge(q, part) <==> x in q || x in part
  {
    if part != [] {
      var init, last := part[..|part| - 1], part[|part| - 1];
      MergeIs(q, init);
      assert part == init + [last];
    }
  }

  ghost predicate IsFirstAt<T>(q: seq<T>, x: T, k: nat) {
    k < |q| && q[k] == x && x !in q[..k]
  }

  /** What comes first in `r` first occurs earlier in `q`. */
  ghost predicate InFirstOrder<T>(q: seq<T>, r: seq<T>) {
    forall i, j, k, l :: (0 <= i < j < |r| && IsFirstAt(q, r[i], k) && IsFirstAt(q, r[j], l)) ==> k < l
  }

  /** Merging keeps the order of first occurrence. */
  lemma {:induction false} MergeOrder<T>(q: seq<T>)
    ensures InFirstOrder(q, Merge([], q))
  {
    if q != [] {
      var init, last := q[..|q| - 1], q[|q| - 1];
      MergeOrder(init);
      MergeIs([], init);
      var before, after := Merge([], init), Merge([], q);
      forall i, j, k, l | 0 <= i < j < |after| && IsFirstAt(q, after[i], k) && IsFirstAt(q, after[j], l)
        ensures k < l
      {
        assert after[i] in before;
        FirstInInit(q, after[i], k);
        if after[j] in before { FirstInInit(q, after[j], l); }
      }
    }
  }

  lemma FirstInInit<T>(q: seq<T>, x: T, k: nat)
    requires q != [] && x in q[..|q| - 1] && IsFirstAt(q, x, k)
    ensures IsFirstAt(q[..|q| - 1], x, k)
  {
    var init := q[..|q| - 1];
    assert q[..|init|] == init;
    assert init[..Min(k, |init|)] == q[..Min(k, |init|)];
  }

  lemma MergeOne<T>(q: seq<T>, part: seq<T>, x: T)
    ensures Merge(q, part + [x]) == if x in Merge(q, part) then Merge(q, part) else Merge(q, part) + [x]
  {
    assert (part + [x])[..|part|] == part;
  }

  lemma {:induction false} MergeSplits<T>(q: seq<T>, a: seq<T>, b: seq<T>)
    ensures Merge(q, a + b) == Merge(Merge(q, a), b)
  {
    if b == [] {
      assert a + b == a;
    } else {
      MergeSplits(q, a, b[..|b| - 1]);
      assert (a + b)[..|a + b| - 1] == a + b[..|b| - 1];
    }
  }
}
