/** When distillation stops moving: which passes change nothing, what follows once one does,
    and exactly which episodes are never taken while the provider behaves the same. */
module Starvation {
  import opened Prelude
  import opened Batches
  import opened Clustering
  import opened Distillation

  // ---------------------------------------------------------------------------
  // A pass is determined by its table, its settings and the provider
  // ---------------------------------------------------------------------------

  lemma SameListings(t: Episodes, s: Settings, answered: Answered, p: Pass, t': Episodes, q: Pass, t'': Episodes)
    requires IsPass(t, s, answered, p, t') && IsPass(t, s, answered, q, t'')
    ensures p.batch == q.batch && p.context == q.context
  {
    SoonerTotal(t);
    NewerTotal(t);
    if s.canDistill {
      FirstIsUnique(Undistilled(t), Sooner(t), s.cap, p.batch, q.batch, |p.batch|);
      assert p.batch == q.batch;
      if p.batch != [] {
        FirstIsUnique(Distilled(t), Newer(t), CONTEXT, p.context, q.context, |p.context|);
      }
    }
  }

  lemma PassIsDeterministic(t: Episodes, s: Settings, answered: Answered, p: Pass, t': Episodes, q: Pass, t'': Episodes)
    requires IsPass(t, s, answered, p, t') && IsPass(t, s, answered, q, t'')
    ensures p == q && t' == t''
  {
    SameListings(t, s, answered, p, t', q, t'');
    if s.canDistill && p.batch != [] {
      BatchAndContext(t, s, answered, p, t');
      var all := p.batch + p.context;
      assert forall k :: 0 <= k < |all| ==> all[k] in t;
      var ids := Loaded(t, all);
      if |ids| >= 2 {
        ExplainedIsUnique(Scorer(s.params, Items(t, ids)), |ids|, p.groups, q.groups);
      }
    }
  }

  // ---------------------------------------------------------------------------
  // Idle passes
  // ---------------------------------------------------------------------------

  /** The episode clusters with others, and the provider fails on that cluster. */
  ghost predicate InFailingGroup(ids: seq<nat>, groups: seq<seq<nat>>, answered: Answered, x: nat) {
    exists c :: 0 <= c < |groups| && |groups[c]| >= 2 && IsMember(ids, groups[c], x) && !answered(MembersOf(ids, groups[c]))
  }

  /** Each listed episode has no lineage or sits in a cluster the provider fails on. */
  ghost predicate Stuck(t: Episodes, answered: Answered, p: Pass) {
    forall x :: x in p.batch && x in t && t[x].raws != {} ==> InFailingGroup(Loadable(t, p), p.groups, answered, x)
  }

  /** A loaded episode sits in one group: alone, in an answered one, or in a failing one. */
  lemma OneOfThree(ids: seq<nat>, groups: seq<seq<nat>>, answered: Answered, x: nat)
    requires Partition(groups, |ids|) && Distinct(ids) && x in ids
    ensures InFailingGroup(ids, groups, answered, x) <==> !IsAlone(ids, groups, x) && !IsConsumed(ids, groups, answered, x)
  {
    var i: nat :| i < |ids| && ids[i] == x;
    var c, k := Locate(groups, |ids|, i);
    assert IsMember(ids, groups[c], x);
    forall d: nat | d < |groups| && IsMember(ids, groups[d], x)
      ensures d == c
    {
      InOneGroup(ids, groups, c, d, x);
    }
  }

  lemma LoadedWithLineage(t: Episodes, s: Settings, answered: Answered, p: Pass, t': Episodes)
    requires IsPass(t, s, answered, p, t')
    ensures Distinct(Loadable(t, p))
    ensures forall x :: x in p.batch && x in t && t[x].raws != {} ==> x in Loadable(t, p)
  {
    LoadableIsDistinct(t, Distil(s, answered, p), t');
    if s.canDistill && p.batch != [] {
      BatchAndContext(t, s, answered, p, t');
      var all := p.batch + p.context;
      assert forall k :: 0 <= k < |all| ==> all[k] in t;
      LoadedIs(t, all);
    }
  }

  /** A listed episode with lineage is left as it was exactly when the provider fails on
      the cluster it sits in. */
  lemma UnmovedIff(t: Episodes, s: Settings, answered: Answered, p: Pass, t': Episodes, x: nat)
    requires IsPass(t, s, answered, p, t') && |Loadable(t, p)| >= 2
    requires x in p.batch && x in t && t[x].raws != {}
    ensures x in t' && (t'[x] == t[x] <==> InFailingGroup(Loadable(t, p), p.groups, answered, x))
  {
    PassOutcome(t, s, answered, p, t');
    LoadedWithLineage(t, s, answered, p, t');
    OneOfThree(Loadable(t, p), p.groups, answered, x);
    assert IsFate(t, answered, p, x, t'[x]);
  }

  /** A pass changes nothing if and only if it loads fewer than two episodes, or every
      listed one has no lineage or clusters with others while the provider fails. */
  lemma IdleIff(t: Episodes, s: Settings, answered: Answered, p: Pass, t': Episodes)
    requires IsPass(t, s, answered, p, t')
    ensures t' == t <==> |Loadable(t, p)| < 2 || Stuck(t, answered, p)
  {
    PassOutcome(t, s, answered, p, t');
    if |Loadable(t, p)| >= 2 {
      forall x | x in p.batch && x in t && t[x].raws != {}
        ensures t'[x] == t[x] <==> InFailingGroup(Loadable(t, p), p.groups, answered, x)
      {
        UnmovedIff(t, s, answered, p, t', x);
      }
    }
    if |Loadable(t, p)| < 2 || Stuck(t, answered, p) {
      forall x | x in t
        ensures t'[x] == t[x]
      {
        assert IsFate(t, answered, p, x, t'[x]);
      }
    }
  }

  // ---------------------------------------------------------------------------
  // Passes that are not idle
  // ---------------------------------------------------------------------------

  /** Whatever the provider does and whichever episodes have lineage, a pass that changes
      anything and leaves `e` out spends a token of what it moved. */
  lemma MovingSpendsAToken(t: Episodes, s: Settings, answered: Answered, p: Pass, t': Episodes, e: nat)
    requires IsPass(t, s, answered, p, t') && t' != t && e in Undistilled(t) && e !in p.batch
    ensures e in Undistilled(t') && t'[e] == t[e]
    ensures |Tokens(t', e)| < |Tokens(t, e)|
  {
    PassOutcome(t, s, answered, p, t');
    assert IsFate(t, answered, p, e, t'[e]);
    var x :| x in t && t'[x] != t[x];
    assert IsFate(t, answered, p, x, t'[x]);
    FullBatchAhead(t, s.cap, p.batch, e);
    assert IsSooner(t, x, e);
    var token := (x, t[x].attempts);
    assert token in Tokens(t, e) && token !in Tokens(t', e);
    forall y, v: nat | (y, v) in Tokens(t', e)
      ensures (y, v) in Tokens(t, e)
    {
      assert IsFate(t, answered, p, y, t'[y]);
    }
    SubsetSizes(Tokens(t', e), Tokens(t, e) - {token});
  }

  // ---------------------------------------------------------------------------
  // Runs with one provider
  // ---------------------------------------------------------------------------

  /** Passes only, all with the same settings and a provider that answers the same way. */
  ghost predicate Constant(es: seq<Event>, s: Settings, answered: Answered) {
    forall k: nat :: k < |es| ==> IsConstant(es[k], s, answered)
  }

  ghost predicate IsConstant(e: Event, s: Settings, answered: Answered) {
    e.Distil? && e.settings == s && e.answered == answered
  }

  lemma PassAt(ts: seq<Episodes>, es: seq<Event>, s: Settings, answered: Answered, k: nat)
    requires Run(ts, es) && Constant(es, s, answered) && k < |es|
    ensures es[k].Distil? && IsPass(ts[k], s, answered, es[k].pass, ts[k + 1])
  {
    StepOf(ts, es, k);
    assert IsConstant(es[k], s, answered);
  }

  lemma SamePassAt(ts: seq<Episodes>, es: seq<Event>, s: Settings, answered: Answered, j: nat, k: nat)
    requires Run(ts, es) && Constant(es, s, answered) && j < |es| && k < |es| && ts[j] == ts[k]
    ensures es[j].Distil? && es[k].Distil? && es[j].pass == es[k].pass && ts[j + 1] == ts[k + 1]
  {
    PassAt(ts, es, s, answered, j);
    PassAt(ts, es, s, answered, k);
    PassIsDeterministic(ts[j], s, answered, es[j].pass, ts[j + 1], es[k].pass, ts[k + 1]);
  }

  /** Once one pass changes nothing, every later one takes the same batch and changes
      nothing either: what is behind that batch is never taken. */
  lemma {:induction false} StuckHeadStarves(ts: seq<Episodes>, es: seq<Event>, s: Settings, answered: Answered, k: nat, n: nat)
    requires Run(ts, es) && Constant(es, s, answered) && k <= n < |es| && ts[k + 1] == ts[k]
    ensures ts[n] == ts[k] && ts[n + 1] == ts[n]
    ensures es[n].Distil? && es[k].Distil? && es[n].pass == es[k].pass
  {
    if k < n {
      StuckHeadStarves(ts, es, s, answered, k, n - 1);
    }
    SamePassAt(ts, es, s, answered, k, n);
  }

  ghost predicate TakenIn(es: seq<Event>, e: nat, n: nat) {
    exists k: nat :: k < n && k < |es| && InBatch(es[k], e)
  }

  /** The first `k` passes leave `e` out, and so does the next, which changes nothing. */
  ghost predicate IdlesAheadOf(ts: seq<Episodes>, es: seq<Event>, e: nat, k: nat) {
    k < |es| && k + 1 < |ts| && ts[k + 1] == ts[k] && !TakenIn(es, e, k + 1)
  }

  ghost predicate Waiting(t: Episodes, e: nat, room: int) {
    e in Undistilled(t) && |Tokens(t, e)| <= room
  }

  lemma WaitingMoves(ts: seq<Episodes>, es: seq<Event>, s: Settings, answered: Answered, e: nat, k: nat, room: int)
    requires Run(ts, es) && Constant(es, s, answered) && k < |es| && Waiting(ts[k], e, room)
    requires !InBatch(es[k], e) && ts[k + 1] != ts[k]
    ensures Waiting(ts[k + 1], e, room - 1)
  {
    PassAt(ts, es, s, answered, k);
    MovingSpendsAToken(ts[k], s, answered, es[k].pass, ts[k + 1], e);
  }

  lemma {:induction false} WaitingShrinks(ts: seq<Episodes>, es: seq<Event>, s: Settings, answered: Answered, e: nat, n: nat, room: int)
    requires Run(ts, es) && Constant(es, s, answered) && n <= |es| && Waiting(ts[0], e, room)
    requires !TakenIn(es, e, n) && forall k: nat :: k < n ==> !IdlesAheadOf(ts, es, e, k)
    ensures Waiting(ts[n], e, room - n)
  {
    if n > 0 {
      WaitingShrinks(ts, es, s, answered, e, n - 1, room);
      assert !IdlesAheadOf(ts, es, e, n - 1) && !InBatch(es[n - 1], e);
      WaitingMoves(ts, es, s, answered, e, n - 1, room - (n - 1));
    }
  }

  lemma IdleNeverTakes(ts: seq<Episodes>, es: seq<Event>, s: Settings, answered: Answered, e: nat, k: nat)
    requires Run(ts, es) && Constant(es, s, answered) && IdlesAheadOf(ts, es, e, k)
    ensures !TakenIn(es, e, |es|)
  {
    forall n: nat | n < |es|
      ensures !InBatch(es[n], e)
    {
      if n >= k {
        StuckHeadStarves(ts, es, s, answered, k, n);
        assert !InBatch(es[k], e);
      }
    }
  }

  /** With a provider that behaves the same on every pass, an undistilled episode is taken
      if and only if no pass before that changes nothing, and then within as many passes
      as there are tokens ahead of it. */
  lemma TakenIff(ts: seq<Episodes>, es: seq<Event>, s: Settings, answered: Answered, e: nat)
    requires Run(ts, es) && Constant(es, s, answered) && e in Undistilled(ts[0]) && |es| >= |Tokens(ts[0], e)|
    ensures TakenIn(es, e, |es|) <==> forall k: nat :: !IdlesAheadOf(ts, es, e, k)
  {
    if k: nat :| IdlesAheadOf(ts, es, e, k) {
      IdleNeverTakes(ts, es, s, answered, e, k);
    } else if !TakenIn(es, e, |es|) {
      WaitingShrinks(ts, es, s, answered, e, |es|, |Tokens(ts[0], e)|);
      OwnToken(ts[|es|], e);
    }
  }

  // ---------------------------------------------------------------------------
  // Tables that starve
  // ---------------------------------------------------------------------------

  const ALIKE := Item(None, ["topic"])

  function Fresh(raws: set<nat>): Episode {
    Episode(0, 0, false, None, None, None, raws, ALIKE)
  }

  /** Two episodes on one topic ahead of a third. */
  const CROWD: Episodes := map[0 := Fresh({0}), 1 := Fresh({1}), 2 := Fresh({2})]

  /** Two episodes that lost their lineage ahead of a third. */
  const BARE: Episodes := map[0 := Fresh({}), 1 := Fresh({}), 2 := Fresh({2})]

  function Pairs(norm: Vec -> real): Settings {
    Settings(true, 2, Params(0.6, 0.4, 12, norm))
  }

  lemma PairsFirst(t: Episodes)
    requires t == CROWD || t == BARE
    ensures First(Undistilled(t), Sooner(t), 2, [0, 1]) && First(Distilled(t), Newer(t), CONTEXT, [])
  {
    assert Undistilled(t) == {0, 1, 2};
    assert Distilled(t) == {};
    assert IsSooner(t, 0, 1) && IsSooner(t, 0, 2) && IsSooner(t, 1, 2);
  }

  lemma PairClusters(norm: Vec -> real)
    ensures IsClustering(Params(0.6, 0.4, 12, norm), [ALIKE, ALIKE], [[0, 1]])
  {
    var p, items, groups := Params(0.6, 0.4, 12, norm), [ALIKE, ALIKE], [[0, 1]];
    var score := Scorer(p, items);
    assert Elements(["topic"]) == {"topic"};
    assert Jaccard(["topic"], ["topic"]) == 1.0;
    PairPartition();
    assert Below([0, 1], 0) == [] && Below([0, 1], 1) == [0] by { PairBelow(); }
    assert RunningCentroid(items, [0]) == None;
    assert score(1, [0]) == Some(1.0);
    forall c: nat
      ensures ScoreAt(score, groups, 0, c).None?
    {
    }
    forall d: nat
      ensures NotBeaten(score, groups, 1, 0, d)
    {
    }
    assert Justified(score, groups, 0, 0) && Justified(score, groups, 0, 1);
  }

  lemma PairBelow()
    ensures Below([0, 1], 0) == [] && Below([0, 1], 1) == [0]
  {
    BelowCut([0, 1], 0, 0);
    BelowCut([0, 1], 1, 1);
    assert [0, 1][..1] == [0];
  }

  lemma PairPartition()
    ensures Partition([[0, 1]], 2)
  {
    var groups: seq<seq<nat>> := [[0, 1]];
    assert 0 in groups[0] && 1 in groups[0];
    forall j: nat | j < 2
      ensures Covers(groups, j)
    {
      assert j in groups[0];
    }
  }

  lemma LoadedTwo(t: Episodes, a: nat, b: nat)
    requires a in t && b in t
    ensures Loaded(t, [a, b]) == (if t[a].raws == {} then [] else [a]) + (if t[b].raws == {} then [] else [b])
  {
    assert [a, b][..1] == [a] && [a][..0] == [];
    assert Loaded(t, [a]) == if t[a].raws == {} then [] else [a];
  }

  lemma CrowdLoads()
    ensures Loaded(CROWD, [0, 1]) == [0, 1] && Items(CROWD, [0, 1]) == [ALIKE, ALIKE]
  {
    LoadedTwo(CROWD, 0, 1);
  }

  lemma CrowdUnmoved(answered: Answered)
    requires !answered([0, 1])
    ensures Consumed(CROWD, [0, 1], [[0, 1]], answered) == CROWD
  {
    var ids, groups := [0, 1], [[0, 1]];
    assert MembersOf(ids, groups[0]) == [0, 1];
    forall x
      ensures !IsAlone(ids, groups, x) && !IsConsumed(ids, groups, answered, x)
    {
    }
    assert Consumed(CROWD, ids, groups, answered).Keys == CROWD.Keys;
  }

  lemma CrowdIdles(norm: Vec -> real, answered: Answered)
    requires !answered([0, 1])
    ensures IsPass(CROWD, Pairs(norm), answered, Pass([0, 1], [], [[0, 1]]), CROWD)
  {
    PairsFirst(CROWD);
    PairClusters(norm);
    assert [0, 1] + [] == [0, 1];
    CrowdLoads();
    CrowdUnmoved(answered);
  }

  lemma BareIdles(norm: Vec -> real, answered: Answered)
    ensures IsPass(BARE, Pairs(norm), answered, Pass([0, 1], [], []), BARE)
  {
    PairsFirst(BARE);
    assert [0, 1] + [] == [0, 1];
    LoadedTwo(BARE, 0, 1);
  }

  /** A provider that fails on the first two keeps the third out for good ... */
  lemma FailingProviderStarves(ts: seq<Episodes>, es: seq<Event>, norm: Vec -> real, answered: Answered)
    requires Run(ts, es) && Constant(es, Pairs(norm), answered) && ts[0] == CROWD && !answered([0, 1])
    ensures !TakenIn(es, 2, |es|)
  {
    CrowdIdles(norm, answered);
    IdleStartStarves(ts, es, Pairs(norm), answered, Pass([0, 1], [], [[0, 1]]), 2);
  }

  /** ... and so do two episodes without lineage, whatever the provider does. */
  lemma LostLineageStarves(ts: seq<Episodes>, es: seq<Event>, norm: Vec -> real, answered: Answered)
    requires Run(ts, es) && Constant(es, Pairs(norm), answered) && ts[0] == BARE
    ensures !TakenIn(es, 2, |es|)
  {
    BareIdles(norm, answered);
    IdleStartStarves(ts, es, Pairs(norm), answered, Pass([0, 1], [], []), 2);
  }

  lemma IdleStartStarves(ts: seq<Episodes>, es: seq<Event>, s: Settings, answered: Answered, p: Pass, e: nat)
    requires Run(ts, es) && Constant(es, s, answered) && IsPass(ts[0], s, answered, p, ts[0]) && e !in p.batch
    ensures !TakenIn(es, e, |es|)
  {
    if |es| > 0 {
      PassAt(ts, es, s, answered, 0);
      PassIsDeterministic(ts[0], s, answered, p, ts[0], es[0].pass, ts[1]);
      assert !TakenIn(es, e, 1);
      IdleNeverTakes(ts, es, s, answered, e, 0);
    }
  }
}
