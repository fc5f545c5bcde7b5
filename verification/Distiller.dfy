/** The distillation pass over the tables, statement by statement. */
module Distiller {
  import opened Prelude
  import opened Batches
  import opened Clustering
  import opened Distillation
  import opened Facts

  /** The foreign calls: the provider (members, attempt) and the embedder may fail; `near`
      is the similarity the supersede query tests. */
  datatype Services = Services(ask: (seq<nat>, nat) -> Option<seq<Draft>>, embed: string -> Option<Vec>, near: Near)

  /** Asked once, and once more if that fails. */
  function Answer(env: Services, members: seq<nat>): Option<seq<Draft>> {
    if env.ask(members, 0).Some? then env.ask(members, 0) else env.ask(members, 1)
  }

  function AnsweredBy(env: Services): Answered {
    (members: seq<nat>) => Answer(env, members).Some?
  }

  // ---------------------------------------------------------------------------
  // Specifications
  // ---------------------------------------------------------------------------

  ghost function WithDrafts(fb: FactBase, t: Episodes, members: seq<nat>, drafts: seq<Draft>, env: Services): FactBase {
    if drafts == [] then fb
    else
      var last := drafts[|drafts| - 1];
      Added(WithDrafts(fb, t, members, drafts[..|drafts| - 1], env), env.near, FactOf(t, members, last, env.embed(last.content)))
  }

  predicate Triggers(t: Episodes, members: seq<nat>) {
    |members| >= 2 && exists k :: 0 <= k < |members| && members[k] in t && !t[members[k]].marked
  }

  ghost function WithClusters(fb: FactBase, t: Episodes, ids: seq<nat>, groups: seq<seq<nat>>, env: Services): FactBase {
    if groups == [] then fb
    else
      var before := WithClusters(fb, t, ids, groups[..|groups| - 1], env);
      var members := MembersOf(ids, groups[|groups| - 1]);
      if Triggers(t, members) && Answer(env, members).Some?
      then WithDrafts(before, t, members, Answer(env, members).value, env) else before
  }

  /** Triggered clusters the provider failed on twice. */
  ghost function Failures(t: Episodes, ids: seq<nat>, groups: seq<seq<nat>>, env: Services): nat {
    if groups == [] then 0
    else
      var members := MembersOf(ids, groups[|groups| - 1]);
      Failures(t, ids, groups[..|groups| - 1], env) + if Triggers(t, members) && Answer(env, members).None? then 1 else 0
  }

  /** The markers once the singletons are bumped and the given clusters handled. */
  function MarkedSoFar(t: Episodes, ids: seq<nat>, groups: seq<seq<nat>>, answered: Answered, c: nat): Episodes
    requires c <= |groups|
  {
    map x | x in t ::
      if t[x].marked then t[x]
      else if IsAlone(ids, groups, x) then t[x].(attempts := t[x].attempts + 1)
      else if IsConsumed(ids, groups[..c], answered, x) then t[x].(marked := true)
      else t[x]
  }

  lemma IsConsumedStep(ids: seq<nat>, groups: seq<seq<nat>>, answered: Answered, c: nat, x: nat)
    requires c < |groups|
    ensures IsConsumed(ids, groups[..c + 1], answered, x) <==>
              IsConsumed(ids, groups[..c], answered, x)
              || (|groups[c]| >= 2 && IsMember(ids, groups[c], x) && answered(MembersOf(ids, groups[c])))
  {
    assert groups[..c + 1] == groups[..c] + [groups[c]];
    if IsConsumed(ids, groups[..c], answered, x) {
      var d :| 0 <= d < c && |groups[..c][d]| >= 2 && IsMember(ids, groups[..c][d], x) && answered(MembersOf(ids, groups[..c][d]));
      assert groups[..c + 1][d] == groups[..c][d];
    }
    if |groups[c]| >= 2 && IsMember(ids, groups[c], x) && answered(MembersOf(ids, groups[c])) {
      assert groups[..c + 1][c] == groups[c];
    }
  }

  lemma NotAloneInCluster(ids: seq<nat>, groups: seq<seq<nat>>, c: nat, x: nat)
    requires Partition(groups, |ids|) && Distinct(ids) && c < |groups| && |groups[c]| >= 2 && IsMember(ids, groups[c], x)
    ensures !IsAlone(ids, groups, x)
  {
    forall d: nat | d < |groups| && |groups[d]| < 2
      ensures !IsMember(ids, groups[d], x)
    {
      if IsMember(ids, groups[d], x) { InOneGroup(ids, groups, c, d, x); }
    }
  }

  /** Handling cluster `c` marks its undistilled members when the provider answers. */
  lemma MarkedStep(t: Episodes, ids: seq<nat>, groups: seq<seq<nat>>, answered: Answered, c: nat, members: seq<nat>, r: Episodes)
    requires Partition(groups, |ids|) && Distinct(ids) && c < |groups| && members == MembersOf(ids, groups[c])
    requires forall k :: 0 <= k < |ids| ==> ids[k] in t
    requires r == if Triggers(t, members) && answered(members)
                  then WithMarks(MarkedSoFar(t, ids, groups, answered, c), t, members)
                  else MarkedSoFar(t, ids, groups, answered, c)
    ensures r == MarkedSoFar(t, ids, groups, answered, c + 1)
  {
    forall x | x in t
      ensures r[x] == MarkedSoFar(t, ids, groups, answered, c + 1)[x]
    {
      IsConsumedStep(ids, groups, answered, c, x);
      MembersAre(ids, groups, c, x);
      if x in members {
        if |groups[c]| >= 2 { NotAloneInCluster(ids, groups, c, x); }
        var k :| 0 <= k < |members| && members[k] == x;
        assert !t[x].marked && |members| >= 2 ==> Triggers(t, members);
      }
    }
  }

  lemma MembersAre(ids: seq<nat>, groups: seq<seq<nat>>, c: nat, x: nat)
    requires Partition(groups, |ids|) && c < |groups|
    ensures |MembersOf(ids, groups[c])| == |groups[c]|
    ensures x in MembersOf(ids, groups[c]) <==> IsMember(ids, groups[c], x)
  {
    assert Bounded(groups[c], |ids|);
    var members := Members(ids, groups[c]);
    if IsMember(ids, groups[c], x) {
      var k :| 0 <= k < |groups[c]| && groups[c][k] < |ids| && ids[groups[c][k]] == x;
      assert members[k] == x;
    }
    if x in members {
      var k :| 0 <= k < |members| && members[k] == x;
      assert ids[groups[c][k]] == x;
    }
  }

  /** The UPDATE that sets `distilled_at`. */
  function WithMarks(now: Episodes, t: Episodes, members: seq<nat>): Episodes {
    map x | x in now :: if x in members && x in t && !t[x].marked then now[x].(marked := true) else now[x]
  }

  // ---------------------------------------------------------------------------
  // The pass
  // ---------------------------------------------------------------------------

  /** What a draft cites of its cluster, or the whole cluster. */
  method GatherEvidence(members: seq<nat>, cites: seq<nat>) returns (evidence: seq<nat>)
    ensures evidence == Evidence(members, cites)
  {
    evidence := [];
    for k := 0 to |cites|
      invariant evidence == Cited(members, cites[..k])
    {
      assert cites[..k + 1][..k] == cites[..k];
      if cites[k] in members {
        evidence := evidence + [cites[k]];
      }
    }
    assert cites[..|cites|] == cites;
    if evidence == [] {
      evidence := members;
    }
  }

  method GatherLineage(t: Episodes, evidence: seq<nat>) returns (raws: set<nat>, sources: set<nat>, time: Option<int>)
    ensures raws == RawsOf(t, evidence) && sources == Elements(evidence) && time == Latest(t, evidence)
  {
    raws, sources, time := {}, {}, None;
    for k := 0 to |evidence|
      invariant raws == RawsOf(t, evidence[..k]) && time == Latest(t, evidence[..k])
      invariant sources == Elements(evidence[..k])
    {
      assert evidence[..k + 1][..k] == evidence[..k];
      assert evidence[..k + 1] == evidence[..k] + [evidence[k]];
      if evidence[k] in t {
        raws := raws + t[evidence[k]].raws;
        time := Later(time, EvidenceTime(t[evidence[k]]));
      }
      sources := sources + {evidence[k]};
    }
    assert evidence[..|evidence|] == evidence;
  }

  class DistillStore {
    var episodes: Episodes
    var facts: seq<Fact>
    var supersedes: set<(nat, nat)>

    function Base(): FactBase
      reads this
    {
      FactBase(facts, supersedes)
    }

    constructor (t: Episodes)
      ensures episodes == t && Base() == FactBase([], {})
    {
      episodes, facts, supersedes := t, [], {};
    }

    /** Episodes of the listing that have lineage. */
    method LoadLineage(ids: seq<nat>) returns (loaded: seq<nat>)
      requires forall k :: 0 <= k < |ids| ==> ids[k] in episodes
      ensures loaded == Loaded(episodes, ids)
    {
      loaded := [];
      for k := 0 to |ids|
        invariant loaded == Loaded(episodes, ids[..k])
      {
        assert ids[..k + 1][..k] == ids[..k];
        if episodes[ids[k]].raws != {} {
          loaded := loaded + [ids[k]];
        }
      }
      assert ids[..|ids|] == ids;
    }

    /** The facts the query matches. */
    method FindRetired(n: nat, near: Near) returns (hits: set<nat>)
      requires n == |facts| - 1
      ensures hits == Retires(FactBase(facts[..n], supersedes), near, facts[n])
    {
      hits := {};
      ghost var olds := Retires(FactBase(facts[..n], supersedes), near, facts[n]);
      for o := 0 to n
        invariant hits == set x | x in olds && x < o
      {
        var fact, prior := facts[n], facts[o];
        if fact.time.Some? && (prior.time.None? || prior.time.value < fact.time.value)
           && fact.embedding.Some? && prior.embedding.Some? && near(fact.embedding.value, prior.embedding.value)
           && !IsRetired(Base(), o) {
          hits := hits + {o};
        }
      }
    }

    /** Closes the window of every active, older, near enough fact. */
    method SupersedeOlder(n: nat, near: Near) returns (closed: nat)
      requires n == |facts| - 1
      requires forall e :: e in supersedes ==> e.0 < n
      modifies this`supersedes
      ensures Base() == Added(FactBase(facts[..n], old(supersedes)), near, facts[n])
      ensures |supersedes| == |old(supersedes)| + closed
      ensures forall e :: e in supersedes ==> e.0 <= n
    {
      ghost var fb := FactBase(facts[..n], supersedes);
      var hits := FindRetired(n, near);
      EdgesSize(n, hits);
      assert Edges(n, hits) !! supersedes;
      supersedes := supersedes + Edges(n, hits);
      closed := |hits|;
      assert facts == facts[..n] + [facts[n]];
    }

    /** One fact: its row, its lineage edges, its embedding, and whatever it retires. */
    method WriteFact(t: Episodes, members: seq<nat>, draft: Draft, env: Services) returns (closed: nat)
      requires forall e :: e in supersedes ==> e.0 < |facts|
      modifies this`facts, this`supersedes
      ensures Base() == Added(old(Base()), env.near, FactOf(t, members, draft, env.embed(draft.content)))
      ensures |facts| == |old(facts)| + 1 && |supersedes| == |old(supersedes)| + closed
      ensures forall e :: e in supersedes ==> e.0 < |facts|
    {
      var evidence := GatherEvidence(members, draft.cites);
      var raws, sources, time := GatherLineage(t, evidence);
      var fact := Fact(draft.content, time, env.embed(draft.content), raws, sources);
      facts := facts + [fact];
      closed := 0;
      assert facts[..|facts| - 1] == old(facts);
      if fact.time.Some? && fact.embedding.Some? {
        closed := SupersedeOlder(|facts| - 1, env.near);
      } else {
        assert Retires(old(Base()), env.near, fact) == {};
      }
    }

    /** Marks the cluster as soon as the provider has answered, then writes its facts. A
        provider that fails twice leaves no trace. */
    method DistillCluster(t: Episodes, members: seq<nat>, env: Services) returns (distilled: nat, closed: nat, failed: bool)
      requires forall e :: e in supersedes ==> e.0 < |facts|
      modifies this
      ensures failed <==> Answer(env, members).None?
      ensures failed ==> episodes == old(episodes) && Base() == old(Base())
      ensures !failed ==> episodes == WithMarks(old(episodes), t, members)
                          && Base() == WithDrafts(old(Base()), t, members, Answer(env, members).value, env)
      ensures |facts| == |old(facts)| + distilled && |supersedes| == |old(supersedes)| + closed
      ensures forall e :: e in supersedes ==> e.0 < |facts|
    {
      distilled, closed := 0, 0;
      var answer := env.ask(members, 0);
      if answer.None? {
        answer := env.ask(members, 1);
      }
      failed := answer.None?;
      if failed {
        return;
      }
      episodes := WithMarks(episodes, t, members);
      distilled := |answer.value|;
      closed := WriteFacts(t, members, answer.value, env);
    }

    method WriteFacts(t: Episodes, members: seq<nat>, drafts: seq<Draft>, env: Services) returns (closed: nat)
      requires forall e :: e in supersedes ==> e.0 < |facts|
      modifies this`facts, this`supersedes
      ensures Base() == WithDrafts(old(Base()), t, members, drafts, env)
      ensures |facts| == |old(facts)| + |drafts| && |supersedes| == |old(supersedes)| + closed
      ensures forall e :: e in supersedes ==> e.0 < |facts|
    {
      closed := 0;
      for k := 0 to |drafts|
        invariant Base() == WithDrafts(old(Base()), t, members, drafts[..k], env)
        invariant |facts| == |old(facts)| + k && |supersedes| == |old(supersedes)| + closed
        invariant forall e :: e in supersedes ==> e.0 < |facts|
      {
        assert drafts[..k + 1][..k] == drafts[..k];
        var more := WriteFact(t, members, drafts[k], env);
        closed := closed + more;
      }
      assert drafts[..|drafts|] == drafts;
    }

    /** The UPDATE that bumps the attempts of lone episodes. */
    method BumpAlone(ids: seq<nat>, groups: seq<seq<nat>>, ghost answered: Answered)
      modifies this`episodes
      ensures episodes == MarkedSoFar(old(episodes), ids, groups, answered, 0)
    {
      episodes := map x | x in episodes ::
        if !episodes[x].marked && IsAlone(ids, groups, x) then episodes[x].(attempts := episodes[x].attempts + 1) else episodes[x];
    }

    /** One distillation pass over a register. */
    method DistillSemantic(s: Settings, env: Services) returns (p: Pass, distilled: nat, closed: nat, failed: nat)
      requires forall e :: e in supersedes ==> e.0 < |facts|
      modifies this
      ensures IsPass(old(episodes), s, AnsweredBy(env), p, episodes)
      ensures Base() == WithClusters(old(Base()), old(episodes), Loadable(old(episodes), p), p.groups, env)
      ensures failed == Failures(old(episodes), Loadable(old(episodes), p), p.groups, env)
      ensures |facts| == |old(facts)| + distilled && |supersedes| == |old(supersedes)| + closed
      ensures forall e :: e in supersedes ==> e.0 < |facts|
    {
      p, distilled, closed, failed := Pass([], [], []), 0, 0, 0;
      if !s.canDistill {
        return;
      }
      var t := episodes;
      SoonerTotal(t);
      NewerTotal(t);
      var batch := Take(Undistilled(t), Sooner(t), s.cap);
      if batch == [] {
        return;
      }
      var context := Take(Distilled(t), Newer(t), CONTEXT);
      TakenIsDistinct(t, s.cap, batch, context);
      p := Pass(batch, context, []);
      var all := batch + context;
      var ids := LoadLineage(all);
      if |all| < 2 || |ids| < 2 {
        LoadedIsShorter(t, all);
        return;
      }
      var groups := ClusterForDistill(s.params, Items(t, ids));
      p := Pass(batch, context, groups);
      distilled, closed, failed := DistillClusters(t, ids, groups, env);
    }

    method DistillClusters(t: Episodes, ids: seq<nat>, groups: seq<seq<nat>>, env: Services)
      returns (distilled: nat, closed: nat, failed: nat)
      requires t == episodes && Partition(groups, |ids|) && Distinct(ids)
      requires forall k :: 0 <= k < |ids| ==> ids[k] in t
      requires forall e :: e in supersedes ==> e.0 < |facts|
      modifies this
      ensures episodes == Consumed(t, ids, groups, AnsweredBy(env))
      ensures Base() == WithClusters(old(Base()), t, ids, groups, env)
      ensures failed == Failures(t, ids, groups, env)
      ensures |facts| == |old(facts)| + distilled && |supersedes| == |old(supersedes)| + closed
      ensures forall e :: e in supersedes ==> e.0 < |facts|
    {
      distilled, closed, failed := 0, 0, 0;
      BumpAlone(ids, groups, AnsweredBy(env));
      for c := 0 to |groups|
        invariant episodes == MarkedSoFar(t, ids, groups, AnsweredBy(env), c)
        invariant Base() == WithClusters(old(Base()), t, ids, groups[..c], env)
        invariant failed == Failures(t, ids, groups[..c], env)
        invariant |facts| == |old(facts)| + distilled && |supersedes| == |old(supersedes)| + closed
        invariant forall e :: e in supersedes ==> e.0 < |facts|
      {
        assert groups[..c + 1][..c] == groups[..c];
        var more, shut, down := HandleCluster(t, ids, groups, c, env);
        distilled, closed, failed := distilled + more, closed + shut, failed + down;
      }
      assert groups[..|groups|] == groups;
    }

    /** Distils the cluster if one of its members triggers it. */
    method HandleCluster(t: Episodes, ids: seq<nat>, groups: seq<seq<nat>>, c: nat, env: Services)
      returns (distilled: nat, closed: nat, failed: nat)
      requires Partition(groups, |ids|) && Distinct(ids) && c < |groups|
      requires forall k :: 0 <= k < |ids| ==> ids[k] in t
      requires episodes == MarkedSoFar(t, ids, groups, AnsweredBy(env), c)
      requires forall e :: e in supersedes ==> e.0 < |facts|
      modifies this
      ensures episodes == MarkedSoFar(t, ids, groups, AnsweredBy(env), c + 1)
      ensures var members := MembersOf(ids, groups[c]);
        if !Triggers(t, members) then Base() == old(Base()) && failed == 0
        else if Answer(env, members).None? then Base() == old(Base()) && failed == 1
        else Base() == WithDrafts(old(Base()), t, members, Answer(env, members).value, env) && failed == 0
      ensures |facts| == |old(facts)| + distilled && |supersedes| == |old(supersedes)| + closed
      ensures forall e :: e in supersedes ==> e.0 < |facts|
    {
      distilled, closed, failed := 0, 0, 0;
      var members := MembersOf(ids, groups[c]);
      if Triggers(t, members) {
        var down;
        distilled, closed, down := DistillCluster(t, members, env);
        failed := if down then 1 else 0;
      }
      MarkedStep(t, ids, groups, AnsweredBy(env), c, members, episodes);
    }
  }

  lemma TakenIsDistinct(t: Episodes, cap: nat, batch: seq<nat>, context: seq<nat>)
    requires First(Undistilled(t), Sooner(t), cap, batch) && First(Distilled(t), Newer(t), CONTEXT, context)
    ensures forall k :: 0 <= k < |batch + context| ==> (batch + context)[k] in t
    ensures Distinct(Loaded(t, batch + context))
  {
    SoonerTotal(t);
    NewerTotal(t);
    FirstIsDistinct(Undistilled(t), Sooner(t), cap, batch);
    FirstIsDistinct(Distilled(t), Newer(t), CONTEXT, context);
    assert forall k :: 0 <= k < |batch| ==> batch[k] in Undistilled(t);
    assert forall k :: 0 <= k < |context| ==> context[k] in Distilled(t);
    LoadedIs(t, batch + context);
  }

  lemma {:induction false} LoadedIsShorter(t: Episodes, ids: seq<nat>)
    requires forall k :: 0 <= k < |ids| ==> ids[k] in t
    ensures |Loaded(t, ids)| <= |ids|
  {
    if ids != [] { LoadedIsShorter(t, ids[..|ids| - 1]); }
  }

  lemma {:induction false} EdgesSize(n: nat, olds: set<nat>)
    ensures |Edges(n, olds)| == |olds|
    decreases |olds|
  {
    if o :| o in olds {
      EdgesSize(n, olds - {o});
      assert Edges(n, olds) == Edges(n, olds - {o}) + {(n, o)};
    }
  }

  // ---------------------------------------------------------------------------
  // Whole histories
  // ---------------------------------------------------------------------------

  ghost predicate IsBuilt(fb: FactBase) {
    exists arrivals :: fb == Build(arrivals)
  }

  lemma AddedKeepsBuilt(fb: FactBase, near: Near, fact: Fact)
    requires IsBuilt(fb)
    ensures IsBuilt(Added(fb, near, fact))
  {
    var arrivals :| fb == Build(arrivals);
    var more := arrivals + [Arrival(fact, near)];
    assert more[..|more| - 1] == arrivals;
    assert Added(fb, near, fact) == Build(more);
  }

  lemma {:induction false} DraftsKeepBuilt(fb: FactBase, t: Episodes, members: seq<nat>, drafts: seq<Draft>, env: Services)
    requires IsBuilt(fb)
    ensures IsBuilt(WithDrafts(fb, t, members, drafts, env))
  {
    if drafts != [] {
      var last, init := drafts[|drafts| - 1], drafts[..|drafts| - 1];
      DraftsKeepBuilt(fb, t, members, init, env);
      AddedKeepsBuilt(WithDrafts(fb, t, members, init, env), env.near, FactOf(t, members, last, env.embed(last.content)));
    }
  }

  /** Every pass keeps the supersession edges a forest whose walks end at one active fact:
      the fact base stays one that arrivals alone explain. */
  lemma {:induction false} ClustersKeepBuilt(fb: FactBase, t: Episodes, ids: seq<nat>, groups: seq<seq<nat>>, env: Services)
    requires IsBuilt(fb)
    ensures IsBuilt(WithClusters(fb, t, ids, groups, env)) && Forest(WithClusters(fb, t, ids, groups, env))
  {
    if groups != [] {
      ClustersKeepBuilt(fb, t, ids, groups[..|groups| - 1], env);
      var before := WithClusters(fb, t, ids, groups[..|groups| - 1], env);
      var members := MembersOf(ids, groups[|groups| - 1]);
      if Triggers(t, members) && Answer(env, members).Some? {
        DraftsKeepBuilt(before, t, members, Answer(env, members).value, env);
      }
    }
    var arrivals :| WithClusters(fb, t, ids, groups, env) == Build(arrivals);
    BuildIsForest(arrivals);
  }

  // ---------------------------------------------------------------------------
  // Every fact of a pass rests on one distilled cluster
  // ---------------------------------------------------------------------------

  lemma LastAdded(fb: FactBase, near: Near, fact: Fact, n: nat)
    ensures var r := Added(fb, near, fact);
      && |r.facts| == |fb.facts| + 1
      && (n < |fb.facts| ==> r.facts[n] == fb.facts[n])
      && (n == |fb.facts| ==> r.facts[n] == fact)
  {
  }

  lemma {:induction false} FactOfDraft(fb: FactBase, t: Episodes, members: seq<nat>, drafts: seq<Draft>, env: Services, n: nat)
    ensures var r := WithDrafts(fb, t, members, drafts, env);
      && |r.facts| == |fb.facts| + |drafts|
      && (n < |fb.facts| ==> r.facts[n] == fb.facts[n])
      && (|fb.facts| <= n < |r.facts| ==>
            var draft := drafts[n - |fb.facts|];
            r.facts[n] == FactOf(t, members, draft, env.embed(draft.content)))
  {
    if drafts != [] {
      var init, last := drafts[..|drafts| - 1], drafts[|drafts| - 1];
      FactOfDraft(fb, t, members, init, env, n);
      LastAdded(WithDrafts(fb, t, members, init, env), env.near, FactOf(t, members, last, env.embed(last.content)), n);
    }
  }

  /** The fact is what the provider drafted from group `c`. */
  ghost predicate DraftedFrom(t: Episodes, ids: seq<nat>, groups: seq<seq<nat>>, env: Services, c: nat, k: nat, fact: Fact) {
    && c < |groups| && Triggers(t, MembersOf(ids, groups[c]))
    && Answer(env, MembersOf(ids, groups[c])).Some?
    && var drafts := Answer(env, MembersOf(ids, groups[c])).value;
    && k < |drafts| && fact == FactOf(t, MembersOf(ids, groups[c]), drafts[k], env.embed(drafts[k].content))
  }

  lemma {:induction false} FactOfCluster(fb: FactBase, t: Episodes, ids: seq<nat>, groups: seq<seq<nat>>, env: Services, n: nat)
    ensures var r := WithClusters(fb, t, ids, groups, env);
      && |fb.facts| <= |r.facts|
      && (n < |fb.facts| ==> r.facts[n] == fb.facts[n])
      && (|fb.facts| <= n < |r.facts| ==> exists c: nat, k: nat :: DraftedFrom(t, ids, groups, env, c, k, r.facts[n]))
  {
    if groups != [] {
      var init := groups[..|groups| - 1];
      FactOfCluster(fb, t, ids, init, env, n);
      var before, after := WithClusters(fb, t, ids, init, env), WithClusters(fb, t, ids, groups, env);
      var members := MembersOf(ids, groups[|groups| - 1]);
      if Triggers(t, members) && Answer(env, members).Some? {
        FactOfDraft(before, t, members, Answer(env, members).value, env, n);
      }
      if |fb.facts| <= n < |before.facts| {
        var c: nat, k: nat :| DraftedFrom(t, ids, init, env, c, k, before.facts[n]);
        assert groups[c] == init[c];
        assert DraftedFrom(t, ids, groups, env, c, k, after.facts[n]);
      } else if |before.facts| <= n < |after.facts| {
        assert DraftedFrom(t, ids, groups, env, |groups| - 1, n - |before.facts|, after.facts[n]);
      }
    }
  }

  lemma MembersHaveLineage(t: Episodes, ids: seq<nat>, groups: seq<seq<nat>>, c: nat)
    requires Partition(groups, |ids|) && c < |groups|
    requires forall k :: 0 <= k < |ids| ==> ids[k] in t && t[ids[k]].raws != {}
    ensures var members := MembersOf(ids, groups[c]);
            members != [] && forall k :: 0 <= k < |members| ==> members[k] in t && t[members[k]].raws != {}
  {
    assert Bounded(groups[c], |ids|) && groups[c] != [];
  }

  /** Group `c` has two members or more, one of them an episode not distilled before. */
  ghost predicate IsTriggeredBy(t: Episodes, ids: seq<nat>, groups: seq<seq<nat>>, c: nat, x: nat) {
    c < |groups| && |groups[c]| >= 2 && IsMember(ids, groups[c], x) && x in t && !t[x].marked
  }

  /** Every fact a pass adds has raw lineage and sources, all from one of the pass's
      distilled groups; that group was triggered by an undistilled episode. */
  lemma NewFactsHaveLineage(fb: FactBase, t: Episodes, ids: seq<nat>, groups: seq<seq<nat>>, env: Services, n: nat)
    requires Partition(groups, |ids|)
    requires forall k :: 0 <= k < |ids| ==> ids[k] in t && t[ids[k]].raws != {}
    requires |fb.facts| <= n < |WithClusters(fb, t, ids, groups, env).facts|
    ensures var f := WithClusters(fb, t, ids, groups, env).facts[n];
      && f.raws != {} && f.sources != {}
      && exists c: nat, x: nat :: IsTriggeredBy(t, ids, groups, c, x) && forall y :: y in f.sources ==> IsMember(ids, groups[c], y)
  {
    FactOfCluster(fb, t, ids, groups, env, n);
    var f := WithClusters(fb, t, ids, groups, env).facts[n];
    var c: nat, k: nat :| DraftedFrom(t, ids, groups, env, c, k, f);
    var members := MembersOf(ids, groups[c]);
    MembersHaveLineage(t, ids, groups, c);
    var draft := Answer(env, members).value[k];
    FactLineage(t, members, draft, env.embed(draft.content));
    forall x | x in f.sources
      ensures IsMember(ids, groups[c], x)
    {
      MembersAre(ids, groups, c, x);
    }
    var i :| 0 <= i < |members| && members[i] in t && !t[members[i]].marked;
    assert members[i] in members;
    MembersAre(ids, groups, c, members[i]);
    assert IsTriggeredBy(t, ids, groups, c, members[i]);
  }
}
