/** The online clusterer that both distillation and the summary tree share.

    Items arrive in order. Each one joins the open cluster whose running centroid
    (or, without embeddings, whose seed's entities) it matches best, or seeds a
    new cluster when no open cluster matches. The result is specified without any
    reference to the loop: `Explained` says which memberships a reader may see in
    the finished groups, and `ExplainedIsUnique` says there is only one such answer. */
module Clustering {
  import opened Prelude

  type Vec = seq<real>

  datatype Item = Item(embedding: Option<Vec>, entities: seq<string>)

  /** `norm` stands for the Euclidean norm: the square root of a float sum is not modelled. */
  datatype Params = Params(cosine: real, jaccard: real, maxSize: nat, norm: Vec -> real)

  // ---------------------------------------------------------------------------
  // Scores
  // ---------------------------------------------------------------------------

  function Dot(a: Vec, b: Vec): real {
    if a == [] || b == [] then 0.0 else a[0] * b[0] + Dot(a[1..], b[1..])
  }

  /** None when the norm is not positive, as for the zero vector. */
  function Normalize(norm: Vec -> real, v: Vec): Option<Vec> {
    var n := norm(v);
    if n > 0.0 then Some(seq(|v|, d requires 0 <= d < |v| => v[d] / n)) else None
  }

  function Jaccard(a: seq<string>, b: seq<string>): real {
    var union := |Elements(a) + Elements(b)|;
    if union == 0 then 0.0 else |Elements(a) * Elements(b)| as real / union as real
  }

  function AtLeast(score: real, threshold: real): Option<real> {
    if score >= threshold then Some(score) else None
  }

  /** The products of the first `n` components, added up. */
  ghost function Products(a: Vec, b: Vec, n: nat): real
    requires n <= |a| && n <= |b|
  {
    if n == 0 then 0.0 else Products(a, b, n - 1) + a[n - 1] * b[n - 1]
  }

  lemma {:induction false} ProductsFront(a: Vec, b: Vec, n: nat)
    requires 0 < n <= |a| && n <= |b|
    ensures Products(a, b, n) == a[0] * b[0] + Products(a[1..], b[1..], n - 1)
  {
    if n > 1 { ProductsFront(a, b, n - 1); }
  }

  /** Components beyond the shorter vector do not count. */
  lemma {:induction false} DotIs(a: Vec, b: Vec)
    ensures Dot(a, b) == Products(a, b, Min(|a|, |b|))
    decreases a
  {
    if a != [] && b != [] {
      DotIs(a[1..], b[1..]);
      ProductsFront(a, b, Min(|a|, |b|));
    }
  }

  ghost predicate IsScaled(c: Vec, k: real, b: Vec) {
    |c| == |b| && forall d :: 0 <= d < |b| ==> c[d] * k == b[d]
  }

  lemma {:induction false} ProductsScale(a: Vec, b: Vec, c: Vec, k: real, n: nat)
    requires n <= |a| && n <= |b| == |c| && IsScaled(c, k, b)
    ensures Products(a, c, n) * k == Products(a, b, n)
  {
    if n > 0 {
      ProductsScale(a, b, c, k, n - 1);
      assert a[n - 1] * c[n - 1] * k == a[n - 1] * (c[n - 1] * k);
    }
  }

  /** A vector with a positive norm comes out divided by it; any other is dropped. */
  lemma NormalizeIs(norm: Vec -> real, v: Vec)
    ensures Normalize(norm, v).Some? <==> norm(v) > 0.0
    ensures Normalize(norm, v).Some? ==> |Normalize(norm, v).value| == |v| && IsScaled(Normalize(norm, v).value, norm(v), v)
  {
  }

  /** Shared elements over all elements, zero when there are none. */
  lemma JaccardIs(a: seq<string>, b: seq<string>)
    ensures Jaccard(a, b) * |Elements(a) + Elements(b)| as real == |Elements(a) * Elements(b)| as real
    ensures a == [] && b == [] ==> Jaccard(a, b) == 0.0
  {
    var all := Elements(a) + Elements(b);
    if |all| == 0 {
      assert Elements(a) * Elements(b) <= all;
    } else {
      Quotient(|Elements(a) * Elements(b)| as real, |all| as real);
    }
  }

  lemma Quotient(x: real, y: real)
    requires y != 0.0
    ensures x / y * y == x
  {
  }

  // ---------------------------------------------------------------------------
  // The running centroid of a group
  // ---------------------------------------------------------------------------

  function EmbeddingAt(items: seq<Item>, i: nat): Option<Vec> {
    if i < |items| then items[i].embedding else None
  }

  function Embedded(items: seq<Item>, h: seq<nat>): nat
  {
    if h == [] then 0
    else Embedded(items, h[..|h| - 1]) + if EmbeddingAt(items, h[|h| - 1]).Some? then 1 else 0
  }

  /** One step of the running mean; a shorter vector leaves the tail components alone. */
  function Fold(cen: Vec, k: nat, e: Vec): Vec {
    seq(|cen|, d requires 0 <= d < |cen| =>
      if d < |e| then (cen[d] * k as real + e[d]) / (k as real + 1.0) else cen[d])
  }

  function FoldInto(cen: Option<Vec>, k: nat, e: Option<Vec>): Option<Vec> {
    match (cen, e)
    case (_, None) => cen
    case (None, Some(v)) => Some(v)
    case (Some(c), Some(v)) => Some(Fold(c, k, v))
  }

  function RunningCentroid(items: seq<Item>, h: seq<nat>): Option<Vec>
  {
    if h == [] then None
    else
      var init := h[..|h| - 1];
      FoldInto(RunningCentroid(items, init), Embedded(items, init), EmbeddingAt(items, h[|h| - 1]))
  }

  function Component(items: seq<Item>, h: seq<nat>, d: nat): real
  {
    if h == [] then 0.0
    else
      Component(items, h[..|h| - 1], d)
      + match EmbeddingAt(items, h[|h| - 1])
        case None => 0.0
        case Some(v) => if d < |v| then v[d] else 0.0
  }

  ghost predicate SameDimension(items: seq<Item>, dim: nat) {
    forall i :: 0 <= i < |items| && items[i].embedding.Some? ==> |items[i].embedding.value| == dim
  }

  /** `x` is the mean of `n` numbers that add up to `sum`. */
  ghost predicate IsMean(x: real, sum: real, n: nat) {
    n > 0 && x == sum / n as real
  }

  lemma MeanStep(x: real, sum: real, n: nat, more: real)
    requires IsMean(x, sum, n)
    ensures IsMean((x * n as real + more) / (n as real + 1.0), sum + more, n + 1)
  {
    assert x * n as real == sum;
    assert (n + 1) as real == n as real + 1.0;
  }

  lemma FoldAt(cen: Vec, n: nat, e: Vec, d: nat, sum: real)
    requires d < |cen| == |e| && IsMean(cen[d], sum, n)
    ensures IsMean(Fold(cen, n, e)[d], sum + e[d], n + 1)
  {
    MeanStep(cen[d], sum, n, e[d]);
    assert Fold(cen, n, e)[d] == (cen[d] * n as real + e[d]) / (n as real + 1.0);
  }

  ghost predicate AllMeans(items: seq<Item>, h: seq<nat>, dim: nat, cen: Vec) {
    |cen| == dim && forall d :: 0 <= d < dim ==> IsMean(cen[d], Component(items, h, d), Embedded(items, h))
  }

  lemma ComponentStep(items: seq<Item>, h: seq<nat>, i: nat, d: nat)
    requires EmbeddingAt(items, i).Some? && d < |EmbeddingAt(items, i).value|
    ensures Component(items, h + [i], d) == Component(items, h, d) + EmbeddingAt(items, i).value[d]
    ensures Embedded(items, h + [i]) == Embedded(items, h) + 1
  {
    assert (h + [i])[..|h|] == h;
  }

  lemma FoldKeepsMeans(items: seq<Item>, h: seq<nat>, i: nat, dim: nat, cen: Vec)
    requires AllMeans(items, h, dim, cen) && EmbeddingAt(items, i).Some? && |EmbeddingAt(items, i).value| == dim
    requires Embedded(items, h) > 0
    ensures AllMeans(items, h + [i], dim, Fold(cen, Embedded(items, h), EmbeddingAt(items, i).value))
  {
    var e, n := EmbeddingAt(items, i).value, Embedded(items, h);
    forall d | 0 <= d < dim
      ensures IsMean(Fold(cen, n, e)[d], Component(items, h + [i], d), Embedded(items, h + [i]))
    {
      ComponentStep(items, h, i, d);
      FoldAt(cen, n, e, d, Component(items, h, d));
    }
  }

  lemma FirstIsMean(items: seq<Item>, h: seq<nat>, i: nat, dim: nat)
    requires Embedded(items, h) == 0 && EmbeddingAt(items, i).Some? && |EmbeddingAt(items, i).value| == dim
    ensures AllMeans(items, h + [i], dim, EmbeddingAt(items, i).value)
  {
    NoneEmbedded(items, h);
    forall d | 0 <= d < dim
      ensures IsMean(EmbeddingAt(items, i).value[d], Component(items, h + [i], d), Embedded(items, h + [i]))
    {
      ComponentStep(items, h, i, d);
    }
  }

  lemma SkippedKeepsMeans(items: seq<Item>, h: seq<nat>, i: nat, dim: nat, cen: Vec)
    requires EmbeddingAt(items, i).None?
    ensures AllMeans(items, h, dim, cen) ==> AllMeans(items, h + [i], dim, cen)
    ensures Embedded(items, h + [i]) == Embedded(items, h)
  {
    assert (h + [i])[..|h|] == h;
    assert forall d: nat :: Component(items, h + [i], d) == Component(items, h, d);
  }

  /** The incrementally folded centroid is the exact mean of the embedded members:
      present exactly when some member is embedded, and componentwise sum over count. */
  lemma {:induction false} CentroidIsMean(items: seq<Item>, h: seq<nat>, dim: nat)
    requires SameDimension(items, dim)
    ensures RunningCentroid(items, h).Some? <==> Embedded(items, h) > 0
    ensures RunningCentroid(items, h).Some? ==> AllMeans(items, h, dim, RunningCentroid(items, h).value)
  {
    if h != [] {
      var init, i := h[..|h| - 1], h[|h| - 1];
      assert h == init + [i];
      CentroidIsMean(items, init, dim);
      var cen := RunningCentroid(items, init);
      if EmbeddingAt(items, i).None? {
        if cen.Some? { SkippedKeepsMeans(items, init, i, dim, cen.value); }
      } else if cen.Some? {
        FoldKeepsMeans(items, init, i, dim, cen.value);
      } else {
        FirstIsMean(items, init, i, dim);
      }
    }
  }

  lemma {:induction false} NoneEmbedded(items: seq<Item>, h: seq<nat>)
    requires Embedded(items, h) == 0
    ensures forall d: nat :: Component(items, h, d) == 0.0
  {
    if h != [] {
      NoneEmbedded(items, h[..|h| - 1]);
    }
  }

  // ---------------------------------------------------------------------------
  // What the finished groups must look like
  // ---------------------------------------------------------------------------

  /** How well an item matches a group; None when it may not join. */
  type Score = (nat, seq<nat>) -> Option<real>

  /** The members of an increasing group that are below `m`. */
  function Below(g: seq<nat>, m: nat): seq<nat> {
    if g == [] then []
    else if g[|g| - 1] < m then g
    else Below(g[..|g| - 1], m)
  }

  function BelowAt(groups: seq<seq<nat>>, c: nat, m: nat): seq<nat> {
    if c < |groups| then Below(groups[c], m) else []
  }

  ghost predicate Increasing(g: seq<nat>) {
    forall x, y :: 0 <= x < y < |g| ==> g[x] < g[y]
  }

  ghost predicate Disjoint(g: seq<nat>, h: seq<nat>) {
    forall x, y :: 0 <= x < |g| && 0 <= y < |h| ==> g[x] != h[y]
  }

  ghost predicate Bounded(g: seq<nat>, n: nat) {
    forall x :: 0 <= x < |g| ==> g[x] < n
  }

  ghost predicate Covers(groups: seq<seq<nat>>, j: nat) {
    exists c :: 0 <= c < |groups| && j in groups[c]
  }

  /** Non-empty increasing groups over `0..n`, in seed order, every index in exactly one. */
  ghost predicate Partition(groups: seq<seq<nat>>, n: nat) {
    && (forall c :: 0 <= c < |groups| ==> groups[c] != [] && Increasing(groups[c]) && Bounded(groups[c], n))
    && (forall c, d :: 0 <= c < d < |groups| ==> groups[c][0] < groups[d][0])
    && (forall c, d :: 0 <= c < d < |groups| ==> Disjoint(groups[c], groups[d]))
    && (forall j: nat :: j < n ==> Covers(groups, j))
  }

  /** The score item `j` saw for group `c`: against the members that came before `j`. */
  ghost function ScoreAt(score: Score, groups: seq<seq<nat>>, j: nat, c: nat): Option<real> {
    if BelowAt(groups, c, j) == [] then None else score(j, BelowAt(groups, c, j))
  }

  ghost predicate NoGroupQualified(score: Score, groups: seq<seq<nat>>, j: nat) {
    forall c: nat :: ScoreAt(score, groups, j, c).None?
  }

  ghost predicate NotBeaten(score: Score, groups: seq<seq<nat>>, j: nat, c: nat, d: nat) {
    var s, best := ScoreAt(score, groups, j, d), ScoreAt(score, groups, j, c);
    best.Some? && (s.Some? ==> s.value <= best.value && (d < c ==> s.value < best.value))
  }

  /** Group `c` qualified, no group scored higher, and no earlier group scored as high. */
  ghost predicate EarliestBest(score: Score, groups: seq<seq<nat>>, j: nat, c: nat) {
    forall d: nat :: NotBeaten(score, groups, j, c, d)
  }

  /** Position `k` of group `c` is accounted for: a seed opened its group because no open
      group qualified, and every other member joined the earliest best one. */
  ghost predicate Justified(score: Score, groups: seq<seq<nat>>, c: nat, k: nat)
    requires c < |groups| && k < |groups[c]|
  {
    if k == 0 then NoGroupQualified(score, groups, groups[c][k])
    else EarliestBest(score, groups, groups[c][k], c)
  }

  ghost predicate Explained(score: Score, n: nat, groups: seq<seq<nat>>) {
    && Partition(groups, n)
    && forall c: nat, k: nat :: c < |groups| && k < |groups[c]| ==> Justified(score, groups, c, k)
  }

  // ---------------------------------------------------------------------------
  // Facts about restriction
  // ---------------------------------------------------------------------------

  lemma {:induction false} BelowIs(g: seq<nat>, m: nat)
    requires Increasing(g)
    ensures Below(g, m) <= g
    ensures forall x :: 0 <= x < |g| ==> (g[x] < m <==> x < |Below(g, m)|)
  {
    if g != [] && g[|g| - 1] >= m {
      BelowIs(g[..|g| - 1], m);
    }
  }

  /** A prefix of an increasing group is its restriction as soon as the bound separates them. */
  lemma BelowCut(g: seq<nat>, k: nat, m: nat)
    requires Increasing(g) && k <= |g|
    requires k > 0 ==> g[k - 1] < m
    requires k < |g| ==> g[k] >= m
    ensures Below(g, m) == g[..k]
  {
    BelowIs(g, m);
  }

  lemma BelowAll(g: seq<nat>, n: nat)
    requires Bounded(g, n)
    ensures Below(g, n) == g
  {
  }

  lemma BelowExtended(g: seq<nat>, i: nat, m: nat)
    requires m <= i
    ensures Below(g + [i], m) == Below(g, m)
  {
    assert (g + [i])[..|g|] == g;
  }

  lemma Locate(groups: seq<seq<nat>>, n: nat, j: nat) returns (c: nat, k: nat)
    requires Partition(groups, n) && j < n
    ensures c < |groups| && k < |groups[c]| && groups[c][k] == j
  {
    assert Covers(groups, j);
    c :| 0 <= c < |groups| && j in groups[c];
    k :| 0 <= k < |groups[c]| && groups[c][k] == j;
  }

  // ---------------------------------------------------------------------------
  // Uniqueness: the explanation determines the groups
  // ---------------------------------------------------------------------------

  ghost predicate AgreeBelow(a: seq<seq<nat>>, b: seq<seq<nat>>, m: nat) {
    forall c: nat :: BelowAt(a, c, m) == BelowAt(b, c, m)
  }

  /** Item `j` only extends the group that holds it. */
  lemma BelowNextOther(groups: seq<seq<nat>>, n: nat, c: nat, k: nat, d: nat)
    requires Partition(groups, n) && c < |groups| && k < |groups[c]| && d != c
    ensures BelowAt(groups, d, groups[c][k] + 1) == BelowAt(groups, d, groups[c][k])
  {
    if d < |groups| {
      var g, j := groups[d], groups[c][k];
      assert j !in g by {
        if c < d { assert Disjoint(groups[c], g); } else { assert Disjoint(g, groups[c]); }
      }
      BelowIs(g, j);
      BelowCut(g, |Below(g, j)|, j + 1);
    }
  }

  lemma BelowNextSame(groups: seq<seq<nat>>, n: nat, c: nat, k: nat)
    requires Partition(groups, n) && c < |groups| && k < |groups[c]|
    ensures BelowAt(groups, c, groups[c][k]) == groups[c][..k]
    ensures BelowAt(groups, c, groups[c][k] + 1) == groups[c][..k] + [groups[c][k]]
  {
    BelowCut(groups[c], k, groups[c][k]);
    BelowCut(groups[c], k + 1, groups[c][k] + 1);
  }

  /** A seed opens the first group that is still empty. */
  lemma SeedIsNextGroup(groups: seq<seq<nat>>, n: nat, c: nat, d: nat)
    requires Partition(groups, n) && c < |groups|
    ensures BelowAt(groups, c, groups[c][0]) == []
    ensures d < c ==> BelowAt(groups, d, groups[c][0]) != []
  {
    BelowCut(groups[c], 0, groups[c][0]);
    if d < c {
      BelowIs(groups[d], groups[c][0]);
    }
  }

  lemma ScoresAgree(score: Score, a: seq<seq<nat>>, b: seq<seq<nat>>, j: nat, c: nat)
    requires AgreeBelow(a, b, j)
    ensures ScoreAt(score, a, j, c) == ScoreAt(score, b, j, c)
  {
    assert BelowAt(a, c, j) == BelowAt(b, c, j);
  }

  /** Both explanations place item `j` in the same group. */
  lemma SameGroup(score: Score, n: nat, a: seq<seq<nat>>, b: seq<seq<nat>>, c: nat, k: nat, d: nat, l: nat)
    requires Explained(score, n, a) && Explained(score, n, b)
    requires c < |a| && k < |a[c]| && d < |b| && l < |b[d]| && a[c][k] == b[d][l]
    requires AgreeBelow(a, b, a[c][k])
    ensures c == d
  {
    var j := a[c][k];
    assert Justified(score, a, c, k) && Justified(score, b, d, l);
    ScoresAgree(score, a, b, j, c);
    ScoresAgree(score, a, b, j, d);
    if k > 0 { assert NotBeaten(score, a, j, c, c); }
    if l > 0 { assert NotBeaten(score, b, j, d, d); }
    if k == 0 && l == 0 {
      SeedIsNextGroup(a, n, c, d);
      SeedIsNextGroup(b, n, d, c);
      assert BelowAt(a, c, j) == BelowAt(b, c, j) && BelowAt(a, d, j) == BelowAt(b, d, j);
    } else if k > 0 && l > 0 {
      assert NotBeaten(score, a, j, c, d) && NotBeaten(score, b, j, d, c);
    }
  }

  lemma AgreeStep(score: Score, n: nat, a: seq<seq<nat>>, b: seq<seq<nat>>, j: nat)
    requires Explained(score, n, a) && Explained(score, n, b)
    requires j < n && AgreeBelow(a, b, j)
    ensures AgreeBelow(a, b, j + 1)
  {
    var c, k := Locate(a, n, j);
    var d, l := Locate(b, n, j);
    SameGroup(score, n, a, b, c, k, d, l);
    AgreeOnNext(n, a, b, c, k, l, j);
  }

  lemma AgreeOnNext(n: nat, a: seq<seq<nat>>, b: seq<seq<nat>>, c: nat, k: nat, l: nat, j: nat)
    requires Partition(a, n) && Partition(b, n) && AgreeBelow(a, b, j)
    requires c < |a| && k < |a[c]| && c < |b| && l < |b[c]| && a[c][k] == j == b[c][l]
    ensures AgreeBelow(a, b, j + 1)
  {
    BelowNextSame(a, n, c, k);
    BelowNextSame(b, n, c, l);
    var m := j + 1;
    forall x: nat
      ensures BelowAt(a, x, m) == BelowAt(b, x, m)
    {
      assert BelowAt(a, x, j) == BelowAt(b, x, j);
      if x != c {
        BelowNextOther(a, n, c, k, x);
        BelowNextOther(b, n, c, l, x);
      }
    }
  }

  lemma {:induction false} AgreeUpTo(score: Score, n: nat, a: seq<seq<nat>>, b: seq<seq<nat>>, m: nat)
    requires Explained(score, n, a) && Explained(score, n, b) && m <= n
    ensures AgreeBelow(a, b, m)
  {
    if m == 0 {
      forall c: nat
        ensures BelowAt(a, c, 0) == [] && BelowAt(b, c, 0) == []
      {
        if c < |a| { BelowCut(a[c], 0, 0); }
        if c < |b| { BelowCut(b[c], 0, 0); }
      }
    } else {
      AgreeUpTo(score, n, a, b, m - 1);
      AgreeStep(score, n, a, b, m - 1);
    }
  }

  /** At most one grouping is explained: the answer is fully determined by the partition,
      threshold, earliest-best and no-open-group clauses. */
  lemma ExplainedIsUnique(score: Score, n: nat, a: seq<seq<nat>>, b: seq<seq<nat>>)
    requires Explained(score, n, a) && Explained(score, n, b)
    ensures a == b
  {
    AgreeUpTo(score, n, a, b, n);
    AgreeAt(n, a, b, |a|);
    AgreeAt(n, a, b, |b|);
    forall c: nat | c < |a|
      ensures a[c] == b[c]
    {
      AgreeAt(n, a, b, c);
    }
  }

  lemma AgreeAt(n: nat, a: seq<seq<nat>>, b: seq<seq<nat>>, c: nat)
    requires Partition(a, n) && Partition(b, n) && AgreeBelow(a, b, n)
    ensures c < |a| <==> c < |b|
    ensures c < |a| ==> a[c] == b[c]
  {
    assert BelowAt(a, c, n) == BelowAt(b, c, n);
    if c < |a| { BelowAll(a[c], n); }
    if c < |b| { BelowAll(b[c], n); }
  }

  // ---------------------------------------------------------------------------
  // Online: the grouping of a prefix is the restriction of the grouping
  // ---------------------------------------------------------------------------

  /** Each group cut down to the indices below `m`, the empty ones dropped. */
  function Restrict(groups: seq<seq<nat>>, m: nat): seq<seq<nat>> {
    if groups == [] then []
    else
      var rest := Restrict(groups[1..], m);
      var first := Below(groups[0], m);
      if first == [] then rest else [first] + rest
  }

  lemma {:induction false} RestrictIs(groups: seq<seq<nat>>, m: nat)
    requires forall c :: 0 <= c < |groups| ==> groups[c] != [] && Increasing(groups[c])
    requires forall c, d :: 0 <= c < d < |groups| ==> groups[c][0] < groups[d][0]
    ensures |Restrict(groups, m)| <= |groups|
    ensures forall c :: 0 <= c < |Restrict(groups, m)| ==> Restrict(groups, m)[c] == Below(groups[c], m) != []
    ensures forall c :: |Restrict(groups, m)| <= c < |groups| ==> Below(groups[c], m) == []
  {
    if groups != [] {
      RestrictIs(groups[1..], m);
      if Below(groups[0], m) == [] {
        LaterAreEmpty(groups, m);
        assert forall c :: 0 <= c < |groups[1..]| ==> Below(groups[1..][c], m) == [];
      }
    }
  }

  /** No group that opened later has a member below `m` if the first has none. */
  lemma LaterAreEmpty(groups: seq<seq<nat>>, m: nat)
    requires forall c :: 0 <= c < |groups| ==> groups[c] != [] && Increasing(groups[c])
    requires forall c, d :: 0 <= c < d < |groups| ==> groups[c][0] < groups[d][0]
    requires groups != [] && Below(groups[0], m) == []
    ensures forall c :: 0 <= c < |groups| ==> Below(groups[c], m) == []
  {
    BelowIs(groups[0], m);
    forall c | 0 <= c < |groups|
      ensures Below(groups[c], m) == []
    {
      BelowCut(groups[c], 0, m);
    }
  }

  lemma BelowTwice(g: seq<nat>, m: nat, j: nat)
    requires Increasing(g) && j <= m
    ensures Below(Below(g, m), j) == Below(g, j)
  {
    BelowIs(g, m);
    BelowIs(g, j);
    var k := |Below(g, j)|;
    if k > 0 { assert g[k - 1] < j; }
    BelowCut(Below(g, m), k, j);
  }

  lemma RestrictKeepsScores(score: Score, n: nat, groups: seq<seq<nat>>, m: nat, j: nat, c: nat)
    requires Partition(groups, n) && j <= m
    ensures ScoreAt(score, Restrict(groups, m), j, c) == ScoreAt(score, groups, j, c)
  {
    RestrictIs(groups, m);
    var r := Restrict(groups, m);
    if c < |groups| {
      BelowTwice(groups[c], m, j);
      assert BelowAt(r, c, j) == BelowAt(groups, c, j);
    }
  }

  lemma RestrictIsPartition(n: nat, groups: seq<seq<nat>>, m: nat)
    requires Partition(groups, n) && m <= n
    ensures Partition(Restrict(groups, m), m)
  {
    var r := Restrict(groups, m);
    RestrictIs(groups, m);
    forall c | 0 <= c < |r|
      ensures r[c] <= groups[c] && Increasing(r[c]) && Bounded(r[c], m)
    {
      BelowIs(groups[c], m);
    }
    forall c, d | 0 <= c < d < |r|
      ensures Disjoint(r[c], r[d])
    {
      assert Disjoint(groups[c], groups[d]);
    }
    forall j: nat | j < m
      ensures Covers(r, j)
    {
      var c, k := Locate(groups, n, j);
      BelowIs(groups[c], m);
      assert r[c][k] == j;
    }
  }

  /** Restriction keeps the explanation: with uniqueness, clustering only the first `m`
      items gives the groups of all items, each cut down to those below `m`. */
  lemma PrefixStable(score: Score, n: nat, groups: seq<seq<nat>>, m: nat)
    requires Explained(score, n, groups) && m <= n
    ensures Explained(score, m, Restrict(groups, m))
  {
    var r := Restrict(groups, m);
    RestrictIs(groups, m);
    RestrictIsPartition(n, groups, m);
    forall c: nat, k: nat | c < |r| && k < |r[c]|
      ensures Justified(score, r, c, k)
    {
      BelowIs(groups[c], m);
      var j := groups[c][k];
      assert r[c][k] == j;
      assert Justified(score, groups, c, k);
      forall d: nat
        ensures ScoreAt(score, r, j, d) == ScoreAt(score, groups, j, d)
      {
        RestrictKeepsScores(score, n, groups, m, j, d);
      }
      if k > 0 {
        forall d: nat
          ensures NotBeaten(score, r, j, c, d)
        {
          assert NotBeaten(score, groups, j, c, d);
        }
      }
    }
  }

  // ---------------------------------------------------------------------------
  // The score the clusterer uses
  // ---------------------------------------------------------------------------

  function EntitiesAt(items: seq<Item>, i: nat): seq<string> {
    if i < |items| then items[i].entities else []
  }

  /** Cosine against the group's running centroid when both sides are embedded, entity
      overlap with the group's seed otherwise; None for a full group or a miss. */
  function GroupScore(p: Params, items: seq<Item>, j: nat, h: seq<nat>): Option<real> {
    if h == [] || |h| >= p.maxSize then None
    else
      match (EmbeddingAt(items, j), RunningCentroid(items, h))
      case (Some(e), Some(cen)) =>
        (match Normalize(p.norm, cen)
         case None => None
         case Some(n) => AtLeast(Dot(e, n), p.cosine))
      case _ => AtLeast(Jaccard(EntitiesAt(items, j), EntitiesAt(items, h[0])), p.jaccard)
  }

  /** `x` is how close item `j` is to the group `h`: the cosine of its embedding, of unit
      length, with the group's centroid where both are there, and otherwise the overlap of
      its entities with those of the group's first member; at least the threshold for it. */
  ghost predicate IsScore(p: Params, items: seq<Item>, j: nat, h: seq<nat>, x: real)
    requires j < |items| && h != [] && h[0] < |items|
  {
    var cen := RunningCentroid(items, h);
    if items[j].embedding.Some? && cen.Some? then
      var e := items[j].embedding.value;
      && p.norm(cen.value) > 0.0 && x >= p.cosine
      && x * p.norm(cen.value) == Products(e, cen.value, Min(|e|, |cen.value|))
    else
      var a, b := Elements(items[j].entities), Elements(items[h[0]].entities);
      && x >= p.jaccard && x * |a + b| as real == |a * b| as real && (a + b == {} ==> x == 0.0)
  }

  lemma CosineIs(p: Params, e: Vec, cen: Vec)
    requires p.norm(cen) > 0.0
    ensures Normalize(p.norm, cen).Some?
    ensures Dot(e, Normalize(p.norm, cen).value) * p.norm(cen) == Products(e, cen, Min(|e|, |cen|))
  {
    hide Normalize, IsScaled, Dot, Products;
    NormalizeIs(p.norm, cen);
    var n := Normalize(p.norm, cen).value;
    DotIs(e, n);
    ProductsScale(e, cen, n, p.norm(cen), Min(|e|, |cen|));
  }

  lemma SameRatio(x: real, y: real, k: real)
    requires k > 0.0 && x * k == y * k
    ensures x == y
  {
  }

  lemma OverlapIs(a: seq<string>, b: seq<string>, x: real)
    ensures x == Jaccard(a, b) <==>
              x * |Elements(a) + Elements(b)| as real == |Elements(a) * Elements(b)| as real
              && (Elements(a) + Elements(b) == {} ==> x == 0.0)
  {
    hide Elements;
    JaccardIs(a, b);
    var all, both := Elements(a) + Elements(b), |Elements(a) * Elements(b)| as real;
    if all == {} {
      assert Jaccard(a, b) == 0.0;
    } else {
      assert |all| > 0;
      hide Jaccard;
      if x * |all| as real == both { SameRatio(x, Jaccard(a, b), |all| as real); }
    }
  }

  lemma ThresholdIs(x: real, y: real, k: real, sum: real, threshold: real)
    requires k > 0.0 && y * k == sum
    ensures AtLeast(y, threshold) == Some(x) <==> x >= threshold && x * k == sum
  {
    if x * k == sum { SameRatio(x, y, k); }
  }

  lemma CosineScoreIs(p: Params, e: Vec, cen: Vec, x: real)
    ensures var n := Normalize(p.norm, cen);
            (n.Some? && AtLeast(Dot(e, n.value), p.cosine) == Some(x)) <==>
              (p.norm(cen) > 0.0 && x >= p.cosine && x * p.norm(cen) == Products(e, cen, Min(|e|, |cen|)))
  {
    hide Normalize, IsScaled, Dot, Products, AtLeast;
    NormalizeIs(p.norm, cen);
    if p.norm(cen) > 0.0 {
      CosineIs(p, e, cen);
      ThresholdIs(x, Dot(e, Normalize(p.norm, cen).value), p.norm(cen), Products(e, cen, Min(|e|, |cen|)), p.cosine);
    }
  }

  /** An item qualifies for a group with room exactly at that score. */
  lemma GroupScoreIs(p: Params, items: seq<Item>, j: nat, h: seq<nat>, x: real)
    requires j < |items| && h != [] && h[0] < |items|
    ensures GroupScore(p, items, j, h) == Some(x) <==> |h| < p.maxSize && IsScore(p, items, j, h, x)
  {
    hide Dot, Products, Normalize, Jaccard, RunningCentroid, Elements;
    var cen := RunningCentroid(items, h);
    if items[j].embedding.Some? && cen.Some? {
      CosineScoreIs(p, items[j].embedding.value, cen.value, x);
    } else {
      OverlapIs(items[j].entities, items[h[0]].entities, x);
    }
  }

  function Scorer(p: Params, items: seq<Item>): Score {
    (j: nat, h: seq<nat>) => GroupScore(p, items, j, h)
  }

  ghost predicate IsClustering(p: Params, items: seq<Item>, groups: seq<seq<nat>>) {
    Explained(Scorer(p, items), |items|, groups)
  }

  /** No chaining: a member beyond the seed met the threshold against the group formed by
      exactly the members before it, and that group still had room. */
  lemma MembersMetTheThreshold(p: Params, items: seq<Item>, groups: seq<seq<nat>>, c: nat, k: nat)
    requires IsClustering(p, items, groups)
    requires c < |groups| && 0 < k < |groups[c]|
    ensures groups[c][k] < |items| && groups[c][0] < |items|
    ensures GroupScore(p, items, groups[c][k], groups[c][..k]).Some?
    ensures exists x :: IsScore(p, items, groups[c][k], groups[c][..k], x)
    ensures k < p.maxSize
  {
    var score, j := Scorer(p, items), groups[c][k];
    BelowNextSame(groups, |items|, c, k);
    assert Justified(score, groups, c, k);
    assert NotBeaten(score, groups, j, c, c);
    assert Bounded(groups[c], |items|);
    GroupScoreIs(p, items, j, groups[c][..k], GroupScore(p, items, j, groups[c][..k]).value);
  }

  lemma GroupsRespectTheCap(p: Params, items: seq<Item>, groups: seq<seq<nat>>, c: nat)
    requires IsClustering(p, items, groups) && c < |groups|
    ensures 1 <= |groups[c]| <= Max(1, p.maxSize)
  {
    if |groups[c]| > 1 {
      MembersMetTheThreshold(p, items, groups, c, |groups[c]| - 1);
    }
  }

  /** A score only reads the items it names, so a longer batch does not change it. */
  lemma {:induction false} ScoreReadsPrefix(p: Params, items: seq<Item>, m: nat, j: nat, h: seq<nat>)
    requires m <= |items| && j < m && Bounded(h, m)
    ensures GroupScore(p, items[..m], j, h) == GroupScore(p, items, j, h)
  {
    CentroidReadsPrefix(items, m, h);
  }

  lemma {:induction false} CentroidReadsPrefix(items: seq<Item>, m: nat, h: seq<nat>)
    requires m <= |items| && Bounded(h, m)
    ensures RunningCentroid(items[..m], h) == RunningCentroid(items, h)
    ensures Embedded(items[..m], h) == Embedded(items, h)
  {
    if h != [] {
      CentroidReadsPrefix(items, m, h[..|h| - 1]);
    }
  }

  /** The clusterer is online: the groups of the first `m` items are the groups of the whole
      batch restricted to those items, whatever arrives later. */
  lemma ClusteringIsOnline(p: Params, items: seq<Item>, m: nat, whole: seq<seq<nat>>, part: seq<seq<nat>>)
    requires m <= |items|
    requires IsClustering(p, items, whole) && IsClustering(p, items[..m], part)
    ensures part == Restrict(whole, m)
  {
    var s, t := Scorer(p, items), Scorer(p, items[..m]);
    forall c: nat, k: nat | c < |part| && k < |part[c]|
      ensures Justified(s, part, c, k)
    {
      var j := part[c][k];
      assert Justified(t, part, c, k);
      forall d: nat
        ensures ScoreAt(s, part, j, d) == ScoreAt(t, part, j, d)
      {
        if d < |part| {
          BelowIs(part[d], j);
          ScoreReadsPrefix(p, items, m, j, BelowAt(part, d, j));
        }
      }
      if k > 0 {
        forall d: nat
          ensures NotBeaten(s, part, j, c, d)
        {
          assert NotBeaten(t, part, j, c, d);
        }
      }
    }
    PrefixStable(s, |items|, whole, m);
    ExplainedIsUnique(s, m, part, Restrict(whole, m));
  }

  // ---------------------------------------------------------------------------
  // The algorithm
  // ---------------------------------------------------------------------------

  class Cluster {
    var members: seq<nat>
    /** Running mean of the embedded members, None until one joins. */
    var centroid: Option<Vec>
    /** How many members the centroid averages. */
    var embedded: nat
    var seed: nat

    ghost predicate Tracks(items: seq<Item>)
      reads this
    {
      && members != []
      && seed == members[0]
      && centroid == RunningCentroid(items, members)
      && embedded == Embedded(items, members)
    }

    constructor (i: nat, embedding: Option<Vec>)
      ensures members == [i] && seed == i && centroid == embedding
      ensures embedded == if embedding.Some? then 1 else 0
    {
      members := [i];
      centroid := embedding;
      embedded := if embedding.Some? then 1 else 0;
      seed := i;
    }

    /** Adds item `i` and folds its embedding into the running mean. */
    method Absorb(items: seq<Item>, i: nat)
      requires Tracks(items) && i < |items|
      modifies this
      ensures Tracks(items) && members == old(members) + [i]
    {
      if items[i].embedding.Some? {
        var e := items[i].embedding.value;
        if centroid.Some? {
          var cen := centroid.value;
          var k := embedded as real;
          var d := 0;
          ghost var folded := Fold(cen, embedded, e);
          while d < |cen| && d < |e|
            invariant 0 <= d <= |cen| == |folded| && d <= |e|
            invariant forall x :: 0 <= x < d ==> cen[x] == folded[x]
            invariant forall x :: d <= x < |cen| ==> cen[x] == centroid.value[x]
          {
            cen := cen[d := (cen[d] * k + e[d]) / (k + 1.0)];
            d := d + 1;
          }
          assert cen == folded;
          centroid := Some(cen);
        } else {
          centroid := Some(e);
        }
        embedded := embedded + 1;
      }
      members := members + [i];
      assert members[..|members| - 1] == old(members);
    }

    /** The match score of item `i`, None when the cluster is full or below the threshold. */
    method Score(p: Params, items: seq<Item>, i: nat) returns (s: Option<real>)
      requires Tracks(items) && i < |items|
      ensures s == GroupScore(p, items, i, members)
    {
      if |members| >= p.maxSize {
        return None;
      }
      if items[i].embedding.Some? && centroid.Some? {
        var n := Normalize(p.norm, centroid.value);
        s := if n.Some? then AtLeast(Dot(items[i].embedding.value, n.value), p.cosine) else None;
      } else {
        s := AtLeast(Jaccard(items[i].entities, EntitiesAt(items, seed)), p.jaccard);
      }
    }
  }

  ghost predicate AllTrack(items: seq<Item>, clusters: seq<Cluster>)
    reads clusters
  {
    && (forall c :: 0 <= c < |clusters| ==> clusters[c].Tracks(items))
    && (forall c, d :: 0 <= c < d < |clusters| ==> clusters[c] != clusters[d])
  }

  ghost function Groups(clusters: seq<Cluster>): (g: seq<seq<nat>>)
    reads clusters
  {
    seq(|clusters|, c requires 0 <= c < |clusters| reads clusters => clusters[c].members)
  }

  /** `best` is the earliest position holding the highest of the scores, None without one. */
  ghost predicate EarliestMax(scores: seq<Option<real>>, best: Option<nat>) {
    match best
    case None => forall c :: 0 <= c < |scores| ==> scores[c].None?
    case Some(b) =>
      b < |scores| && scores[b].Some? &&
      forall c :: 0 <= c < |scores| && scores[c].Some? ==>
        scores[c].value <= scores[b].value && (c < b ==> scores[c].value < scores[b].value)
  }

  ghost function Scores(score: Score, groups: seq<seq<nat>>, i: nat): seq<Option<real>> {
    seq(|groups|, c requires 0 <= c < |groups| => score(i, groups[c]))
  }

  ghost predicate BestOf(score: Score, groups: seq<seq<nat>>, i: nat, best: Option<nat>) {
    EarliestMax(Scores(score, groups, i), best)
  }

  /** The earliest cluster with the highest qualifying score, or None. */
  lemma EarliestMaxStep(seen: seq<Option<real>>, best: Option<nat>, s: Option<real>)
    requires EarliestMax(seen, best)
    ensures EarliestMax(seen + [s],
                        if s.Some? && (best.None? || s.value > seen[best.value].value) then Some(|seen|) else best)
  {
  }

  method BestClusterFor(p: Params, items: seq<Item>, clusters: seq<Cluster>, i: nat)
    returns (best: Option<nat>)
    requires AllTrack(items, clusters) && i < |items|
    ensures BestOf(Scorer(p, items), Groups(clusters), i, best)
  {
    best := None;
    var top := 0.0;
    ghost var seen: seq<Option<real>> := [];
    for ci := 0 to |clusters|
      invariant |seen| == ci
      invariant forall c :: 0 <= c < ci ==> seen[c] == GroupScore(p, items, i, clusters[c].members)
      invariant EarliestMax(seen, best)
      invariant best.Some? ==> seen[best.value] == Some(top)
    {
      var s := clusters[ci].Score(p, items, i);
      EarliestMaxStep(seen, best, s);
      seen := seen + [s];
      if s.Some? && (best.None? || s.value > top) {
        best, top := Some(ci), s.value;
      }
    }
    assert seen == Scores(Scorer(p, items), Groups(clusters), i);
  }

  /** The groups after item `i` was placed. */
  ghost predicate Placed(score: Score, groups: seq<seq<nat>>, i: nat, grown: seq<seq<nat>>) {
    exists best :: BestOf(score, groups, i, best) &&
      grown == match best
               case None => groups + [[i]]
               case Some(b) => groups[b := groups[b] + [i]]
  }

  /** Adds item `i` to its best cluster, or seeds a new one. */
  method Place(p: Params, items: seq<Item>, clusters: seq<Cluster>, i: nat) returns (grown: seq<Cluster>)
    requires AllTrack(items, clusters) && i < |items|
    modifies clusters
    ensures AllTrack(items, grown)
    ensures forall c :: 0 <= c < |grown| ==> grown[c] in clusters || fresh(grown[c])
    ensures Placed(Scorer(p, items), old(Groups(clusters)), i, Groups(grown))
  {
    var best := BestClusterFor(p, items, clusters, i);
    ghost var before := Groups(clusters);
    match best {
      case Some(ci) =>
        clusters[ci].Absorb(items, i);
        grown := clusters;
        assert Groups(grown) == before[ci := before[ci] + [i]];
      case None =>
        var c := new Cluster(i, items[i].embedding);
        assert RunningCentroid(items, []) == None && Embedded(items, []) == 0;
        assert [i][..0] == [];
        grown := clusters + [c];
        assert Groups(grown) == before + [[i]];
    }
  }

  /** Clusters the items; the groups are the one explained partition of their indices. */
  method ClusterForDistill(p: Params, items: seq<Item>) returns (groups: seq<seq<nat>>)
    ensures IsClustering(p, items, groups)
  {
    var clusters: seq<Cluster> := [];
    ghost var members: seq<seq<nat>> := [];
    for i := 0 to |items|
      invariant forall c :: 0 <= c < |clusters| ==> fresh(clusters[c])
      invariant AllTrack(items, clusters)
      invariant members == Groups(clusters)
      invariant Explained(Scorer(p, items), i, members)
    {
      clusters := PlaceNext(p, items, clusters, i);
      members := Groups(clusters);
    }
    groups := [];
    for c := 0 to |clusters|
      invariant |groups| == c
      invariant forall d :: 0 <= d < c ==> groups[d] == clusters[d].members
    {
      groups := groups + [clusters[c].members];
    }
    assert groups == members;
  }

  /** `Place`, with the explanation carried along. */
  method PlaceNext(p: Params, items: seq<Item>, clusters: seq<Cluster>, i: nat) returns (grown: seq<Cluster>)
    requires AllTrack(items, clusters) && i < |items|
    requires Explained(Scorer(p, items), i, Groups(clusters))
    modifies clusters
    ensures AllTrack(items, grown)
    ensures forall c :: 0 <= c < |grown| ==> grown[c] in clusters || fresh(grown[c])
    ensures Explained(Scorer(p, items), i + 1, Groups(grown))
  {
    ghost var before := Groups(clusters);
    grown := Place(p, items, clusters, i);
    PlaceKeepsExplained(Scorer(p, items), i, before, Groups(grown));
  }

  lemma PlaceKeepsExplained(score: Score, i: nat, groups: seq<seq<nat>>, grown: seq<seq<nat>>)
    requires Explained(score, i, groups) && Placed(score, groups, i, grown)
    ensures Explained(score, i + 1, grown)
  {
    var best :| BestOf(score, groups, i, best) &&
      grown == match best
               case None => groups + [[i]]
               case Some(b) => groups[b := groups[b] + [i]];
    match best {
      case None => SeedKeepsExplained(score, i, groups);
      case Some(b) => JoinKeepsExplained(score, i, groups, b);
    }
  }

  /** Growing the grouping at index `i` leaves every score below `i` as it was. */
  lemma ExtendKeepsScores(score: Score, i: nat, groups: seq<seq<nat>>, grown: seq<seq<nat>>, j: nat, c: nat)
    requires Partition(groups, i) && j <= i
    requires |groups| <= |grown|
    requires forall c :: 0 <= c < |groups| ==> grown[c] == groups[c] || grown[c] == groups[c] + [i]
    requires forall c :: |groups| <= c < |grown| ==> grown[c] == [i]
    ensures ScoreAt(score, grown, j, c) == ScoreAt(score, groups, j, c)
  {
    if c < |groups| {
      BelowExtended(groups[c], i, j);
      BelowAll(groups[c], i);
    } else if c < |grown| {
      BelowExtended([], i, j);
      assert [] + [i] == [i];
    }
  }

  /** Item `i` itself is scored against the whole groups. */
  lemma FrontierScore(score: Score, i: nat, groups: seq<seq<nat>>, grown: seq<seq<nat>>, c: nat)
    requires Partition(groups, i)
    requires |groups| <= |grown|
    requires forall c :: 0 <= c < |groups| ==> grown[c] == groups[c] || grown[c] == groups[c] + [i]
    requires forall c :: |groups| <= c < |grown| ==> grown[c] == [i]
    ensures ScoreAt(score, grown, i, c) == if c < |groups| then Scores(score, groups, i)[c] else None
  {
    ExtendKeepsScores(score, i, groups, grown, i, c);
    if c < |groups| {
      BelowAll(groups[c], i);
    }
  }

  lemma ExtendKeepsJustified(score: Score, i: nat, groups: seq<seq<nat>>, grown: seq<seq<nat>>, c: nat, k: nat)
    requires Explained(score, i, groups)
    requires |groups| <= |grown|
    requires forall c :: 0 <= c < |groups| ==> grown[c] == groups[c] || grown[c] == groups[c] + [i]
    requires forall c :: |groups| <= c < |grown| ==> grown[c] == [i]
    requires c < |groups| && k < |groups[c]|
    ensures Justified(score, grown, c, k)
  {
    var j := groups[c][k];
    assert grown[c][k] == j;
    assert Justified(score, groups, c, k);
    assert Bounded(groups[c], i);
    forall d: nat
      ensures ScoreAt(score, grown, j, d) == ScoreAt(score, groups, j, d)
    {
      ExtendKeepsScores(score, i, groups, grown, j, d);
    }
    if k > 0 {
      forall d: nat
        ensures NotBeaten(score, grown, j, c, d)
      {
        assert NotBeaten(score, groups, j, c, d);
      }
    }
  }

  lemma CoverNext(groups: seq<seq<nat>>, i: nat, grown: seq<seq<nat>>, c: nat, k: nat)
    requires Partition(groups, i) && |groups| <= |grown|
    requires forall c :: 0 <= c < |groups| ==> groups[c] <= grown[c]
    requires c < |grown| && k < |grown[c]| && grown[c][k] == i
    ensures forall j: nat :: j < i + 1 ==> Covers(grown, j)
  {
    forall j: nat | j < i + 1
      ensures Covers(grown, j)
    {
      if j < i {
        var d, l := Locate(groups, i, j);
        assert grown[d][l] == j;
      }
    }
  }

  lemma JoinKeepsDisjoint(g: seq<nat>, h: seq<nat>, i: nat)
    requires Disjoint(g, h) && Bounded(g, i) && Bounded(h, i)
    ensures Disjoint(g + [i], h) && Disjoint(g, h + [i])
  {
  }

  lemma JoinKeepsPartition(i: nat, groups: seq<seq<nat>>, ci: nat)
    requires Partition(groups, i) && ci < |groups|
    ensures Partition(groups[ci := groups[ci] + [i]], i + 1)
  {
    var grown := groups[ci := groups[ci] + [i]];
    CoverNext(groups, i, grown, ci, |groups[ci]|);
    forall c | 0 <= c < |grown|
      ensures Increasing(grown[c]) && Bounded(grown[c], i + 1) && grown[c][0] == groups[c][0]
    {
      assert Increasing(groups[c]) && Bounded(groups[c], i);
    }
    forall c, d | 0 <= c < d < |grown|
      ensures Disjoint(grown[c], grown[d])
    {
      assert Disjoint(groups[c], groups[d]);
      JoinKeepsDisjoint(groups[c], groups[d], i);
    }
  }

  lemma JoinKeepsExplained(score: Score, i: nat, groups: seq<seq<nat>>, ci: nat)
    requires Explained(score, i, groups) && BestOf(score, groups, i, Some(ci))
    ensures Explained(score, i + 1, groups[ci := groups[ci] + [i]])
  {
    var grown := groups[ci := groups[ci] + [i]];
    JoinKeepsPartition(i, groups, ci);
    forall c: nat, k: nat | c < |grown| && k < |grown[c]|
      ensures Justified(score, grown, c, k)
    {
      if k < |groups[c]| {
        ExtendKeepsJustified(score, i, groups, grown, c, k);
      } else {
        JoinedIsJustified(score, i, groups, ci);
      }
    }
  }

  lemma JoinedIsJustified(score: Score, i: nat, groups: seq<seq<nat>>, ci: nat)
    requires Partition(groups, i) && BestOf(score, groups, i, Some(ci))
    ensures Justified(score, groups[ci := groups[ci] + [i]], ci, |groups[ci]|)
  {
    var grown := groups[ci := groups[ci] + [i]];
    FrontierScore(score, i, groups, grown, ci);
    forall d: nat
      ensures NotBeaten(score, grown, i, ci, d)
    {
      FrontierScore(score, i, groups, grown, d);
    }
  }

  lemma SeedKeepsExplained(score: Score, i: nat, groups: seq<seq<nat>>)
    requires Explained(score, i, groups) && BestOf(score, groups, i, None)
    ensures Explained(score, i + 1, groups + [[i]])
  {
    var grown := groups + [[i]];
    CoverNext(groups, i, grown, |groups|, 0);
    forall c | 0 <= c < |groups|
      ensures Bounded(groups[c], i) && Disjoint(groups[c], [i])
    {
    }
    forall c: nat, k: nat | c < |grown| && k < |grown[c]|
      ensures Justified(score, grown, c, k)
    {
      if c < |groups| {
        ExtendKeepsJustified(score, i, groups, grown, c, k);
      } else {
        forall d: nat
          ensures ScoreAt(score, grown, i, d).None?
        {
          FrontierScore(score, i, groups, grown, d);
        }
      }
    }
  }
}
