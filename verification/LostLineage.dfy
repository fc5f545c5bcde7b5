/** What episodes that lost their lineage do to the ones behind them. They are listed, cannot
    be loaded and are never moved, so they keep their places in every batch: how many of
    them are ahead of an episode decides, from the first table on, whether it is taken. */
module LostLineage {
  import opened Prelude
  import opened Batches
  import opened Clustering
  import opened Distillation
  import opened Starvation

  /** The undistilled episodes ahead of `e` that have no lineage ... */
  function BareAhead(t: Episodes, e: nat): set<nat> {
    set x | x in t && !t[x].marked && t[x].raws == {} && IsSooner(t, x, e)
  }

  /** ... and those that have. */
  function LoadableAhead(t: Episodes, e: nat): set<nat> {
    set x | x in t && !t[x].marked && t[x].raws != {} && IsSooner(t, x, e)
  }

  function BareNewer(t: Episodes, x: nat): set<nat> {
    set y | y in t && t[y].marked && t[y].raws == {} && IsNewer(t, y, x)
  }

  /** Some distilled episode with lineage makes it into the context listing. */
  ghost predicate HasContext(t: Episodes) {
    exists x :: x in t && t[x].marked && t[x].raws != {} && |BareNewer(t, x)| < CONTEXT
  }

  ghost predicate Holds(t: Episodes, q: seq<nat>) {
    exists x :: x in q && x in t && t[x].raws != {}
  }

  lemma HasContextIff(t: Episodes, q: seq<nat>)
    requires First(Distilled(t), Newer(t), CONTEXT, q)
    ensures HasContext(t) <==> Holds(t, q)
  {
    NewerTotal(t);
    FirstIsDistinct(Distilled(t), Newer(t), CONTEXT, q);
    DistinctSize(q);
    if HasContext(t) {
      var x :| x in t && t[x].marked && t[x].raws != {} && |BareNewer(t, x)| < CONTEXT;
      if !Holds(t, q) { AllBareListing(t, q, x); }
    }
    if Holds(t, q) {
      var x :| x in q && x in t && t[x].raws != {};
      var k :| 0 <= k < |q| && q[k] == x;
      forall y | y in BareNewer(t, x)
        ensures y in q
      {
        FirstIsClosed(Distilled(t), Newer(t), CONTEXT, q, k, y);
      }
      SubsetSizes(BareNewer(t, x) + {x}, Elements(q));
    }
  }

  lemma AllBareListing(t: Episodes, q: seq<nat>, x: nat)
    requires First(Distilled(t), Newer(t), CONTEXT, q) && |Elements(q)| == |q| && !Holds(t, q)
    requires x in t && t[x].marked && t[x].raws != {}
    ensures |BareNewer(t, x)| >= CONTEXT
  {
    assert x !in q && x in Distilled(t);
    forall y | y in q
      ensures y in BareNewer(t, x) && y in Distilled(t)
    {
      var k :| 0 <= k < |q| && q[k] == y;
      assert Newer(t)(q[k], x);
    }
    SubsetSizes(Elements(q), BareNewer(t, x));
    SubsetSizes(Elements(q) + {x}, Distilled(t));
  }

  // ---------------------------------------------------------------------------
  // One pass
  // ---------------------------------------------------------------------------

  /** A pass that leaves `e` as it was leaves what is bare as it was. */
  lemma BareStays(t: Episodes, s: Settings, answered: Answered, p: Pass, t': Episodes, e: nat)
    requires IsPass(t, s, answered, p, t') && e in t && e in t' && t'[e] == t[e]
    ensures BareAhead(t', e) == BareAhead(t, e)
    ensures HasContext(t) ==> HasContext(t')
  {
    PassOutcome(t, s, answered, p, t');
    forall x | x in t
      ensures t'[x].raws == t[x].raws && t'[x].eventTime == t[x].eventTime && (t[x].marked || t[x].raws == {} ==> t'[x] == t[x])
    {
      assert IsFate(t, answered, p, x, t'[x]);
    }
    if HasContext(t) {
      var x :| x in t && t[x].marked && t[x].raws != {} && |BareNewer(t, x)| < CONTEXT;
      assert BareNewer(t', x) == BareNewer(t, x);
    }
  }

  /** A batch that holds `e` holds everything ahead of it. */
  lemma AheadIsListed(t: Episodes, cap: nat, q: seq<nat>, e: nat)
    requires First(Undistilled(t), Sooner(t), cap, q) && e in q
    ensures |BareAhead(t, e)| < cap
  {
    SoonerTotal(t);
    FirstIsDistinct(Undistilled(t), Sooner(t), cap, q);
    DistinctSize(q);
    var k :| 0 <= k < |q| && q[k] == e;
    forall x | x in BareAhead(t, e)
      ensures x in q
    {
      FirstIsClosed(Undistilled(t), Sooner(t), cap, q, k, x);
    }
    SubsetSizes(BareAhead(t, e) + {e}, Elements(q));
  }

  /** What a batch that leaves `e` out holds besides the bare ones ahead of it. */
  lemma LoadableInBatch(t: Episodes, cap: nat, q: seq<nat>, e: nat) returns (rest: set<nat>)
    requires First(Undistilled(t), Sooner(t), cap, q) && e in Undistilled(t) && e !in q
    ensures rest == set x | x in q && x in LoadableAhead(t, e)
    ensures |rest| + |BareAhead(t, e)| >= cap
  {
    FullBatchAhead(t, cap, q, e);
    SoonerTotal(t);
    FirstIsDistinct(Undistilled(t), Sooner(t), cap, q);
    DistinctSize(q);
    rest := set x | x in q && x in LoadableAhead(t, e);
    forall x | x in q
      ensures x in rest + BareAhead(t, e)
    {
      var k :| 0 <= k < |q| && q[k] == x;
      assert q[k] in Undistilled(t) && IsSooner(t, q[k], e);
    }
    SubsetSizes(Elements(q), rest + BareAhead(t, e));
  }

  lemma TwoInSet(s: set<nat>) returns (a: nat, b: nat)
    requires |s| >= 2
    ensures a in s && b in s && a != b
  {
    a :| a in s;
    assert |s - {a}| == |s| - 1;
    b :| b in s - {a};
  }

  lemma TwoInSeq(q: seq<nat>, a: nat, b: nat)
    requires a in q && b in q && a != b
    ensures |q| >= 2
  {
  }

  /** Whoever is left out, a listed episode with lineage moves once two can be loaded and the
      provider answers. */
  lemma LoadedMoves(t: Episodes, s: Settings, answered: Answered, p: Pass, t': Episodes, x: nat, y: nat)
    requires IsPass(t, s, answered, p, t') && s.canDistill && forall g: seq<nat> :: answered(g)
    requires x in p.batch && x in t && t[x].raws != {}
    requires y in p.batch + p.context && y in t && t[y].raws != {} && y != x
    ensures t' != t
  {
    BatchAndContext(t, s, answered, p, t');
    var all := p.batch + p.context;
    assert forall k :: 0 <= k < |all| ==> all[k] in t;
    LoadedIs(t, all);
    TwoInSeq(Loaded(t, all), x, y);
    PassOutcome(t, s, answered, p, t');
    ListedIsMember(Loadable(t, p), p.groups, answered, x);
    assert !t[x].marked by { var k :| 0 <= k < |p.batch| && p.batch[k] == x; }
    assert IsFate(t, answered, p, x, t'[x]);
  }

  /** The bare ones ahead leave two places, or one and the context holds something to cluster with. */
  ghost predicate Open(t: Episodes, e: nat, cap: nat) {
    |BareAhead(t, e)| + 2 <= cap || (|BareAhead(t, e)| + 1 <= cap && HasContext(t))
  }

  lemma OpenPassMoves(t: Episodes, s: Settings, answered: Answered, p: Pass, t': Episodes, e: nat)
    requires IsPass(t, s, answered, p, t') && s.canDistill && forall g: seq<nat> :: answered(g)
    requires e in Undistilled(t) && e !in p.batch && Open(t, e, s.cap)
    ensures t' != t
  {
    var rest := LoadableInBatch(t, s.cap, p.batch, e);
    if |rest| >= 2 {
      var x, y := TwoInSet(rest);
      LoadedMoves(t, s, answered, p, t', x, y);
    } else {
      var x :| x in rest;
      assert p.batch != [];
      HasContextIff(t, p.context);
      var y :| y in p.context && y in t && t[y].raws != {};
      BatchAndContext(t, s, answered, p, t');
      var k :| 0 <= k < |p.context| && p.context[k] == y;
      LoadedMoves(t, s, answered, p, t', x, y);
    }
  }

  // ---------------------------------------------------------------------------
  // No place left
  // ---------------------------------------------------------------------------

  /** A pass of at most `cap`, with any settings and any provider. */
  ghost predicate PassWithin(ev: Event, cap: nat) {
    ev.Distil? && ev.settings.cap <= cap
  }

  ghost predicate Buried(t: Episodes, e: nat, cap: nat) {
    e in Undistilled(t) && |BareAhead(t, e)| >= cap
  }

  lemma BuriedStays(t: Episodes, ev: Event, t': Episodes, e: nat, cap: nat)
    requires Step(t, ev, t') && PassWithin(ev, cap) && Buried(t, e, cap)
    ensures Buried(t', e, cap) && !InBatch(ev, e)
  {
    var s, answered, p := ev.settings, ev.answered, ev.pass;
    if e in p.batch { AheadIsListed(t, s.cap, p.batch, e); }
    PassOutcome(t, s, answered, p, t');
    assert IsFate(t, answered, p, e, t'[e]);
    BareStays(t, s, answered, p, t', e);
  }

  lemma {:induction false} StaysBuried(ts: seq<Episodes>, es: seq<Event>, e: nat, cap: nat, n: nat)
    requires Run(ts, es) && (forall k :: 0 <= k < |es| ==> PassWithin(es[k], cap)) && n <= |es|
    requires Buried(ts[0], e, cap)
    ensures Buried(ts[n], e, cap) && !TakenIn(es, e, n)
  {
    if n > 0 {
      StaysBuried(ts, es, e, cap, n - 1);
      StepOf(ts, es, n - 1);
      BuriedStays(ts[n - 1], es[n - 1], ts[n], e, cap);
    }
  }

  /** With a full batch of them ahead, `e` is never taken, whatever the provider does. */
  lemma BareHeadStarves(ts: seq<Episodes>, es: seq<Event>, e: nat, cap: nat)
    requires Run(ts, es) && forall k :: 0 <= k < |es| ==> PassWithin(es[k], cap)
    requires e in Undistilled(ts[0]) && |BareAhead(ts[0], e)| >= cap
    ensures !TakenIn(es, e, |es|)
  {
    StaysBuried(ts, es, e, cap, |es|);
  }

  // ---------------------------------------------------------------------------
  // Places left
  // ---------------------------------------------------------------------------

  ghost predicate Advancing(t: Episodes, e: nat, cap: nat, room: int) {
    Waiting(t, e, room) && Open(t, e, cap)
  }

  lemma OpenPassAdvances(t: Episodes, ev: Event, t': Episodes, e: nat, cap: nat, room: int)
    requires Step(t, ev, t') && Attentive(ev, cap) && Advancing(t, e, cap, room) && !InBatch(ev, e)
    ensures Advancing(t', e, cap, room - 1)
  {
    OpenPassMoves(t, ev.settings, ev.answered, ev.pass, t', e);
    MovingSpendsAToken(t, ev.settings, ev.answered, ev.pass, t', e);
    BareStays(t, ev.settings, ev.answered, ev.pass, t', e);
  }

  lemma {:induction false} StillAdvancing(ts: seq<Episodes>, es: seq<Event>, e: nat, cap: nat, n: nat, room: int)
    requires Run(ts, es) && (forall k :: 0 <= k < |es| ==> Attentive(es[k], cap)) && n <= |es|
    requires Advancing(ts[0], e, cap, room) && !TakenIn(es, e, n)
    ensures Advancing(ts[n], e, cap, room - n)
  {
    if n > 0 {
      StillAdvancing(ts, es, e, cap, n - 1, room);
      StepOf(ts, es, n - 1);
      OpenPassAdvances(ts[n - 1], es[n - 1], ts[n], e, cap, room - (n - 1));
    }
  }

  /** With a provider that answers, two places left - or one, and a listed context episode
      with lineage - are enough: `e` is taken within as many passes as there are tokens. */
  lemma OpenHeadIsPassed(ts: seq<Episodes>, es: seq<Event>, e: nat, cap: nat)
    requires Run(ts, es) && forall k :: 0 <= k < |es| ==> Attentive(es[k], cap)
    requires e in Undistilled(ts[0]) && |es| >= |Tokens(ts[0], e)| && Open(ts[0], e, cap)
    ensures TakenIn(es, e, |es|)
  {
    if !TakenIn(es, e, |es|) {
      StillAdvancing(ts, es, e, cap, |es|, |Tokens(ts[0], e)|);
      OwnToken(ts[|es|], e);
    }
  }

  // ---------------------------------------------------------------------------
  // One place left, and nothing in the context
  // ---------------------------------------------------------------------------

  /** No two episodes with lineage come before a bare one ahead of `e`: all the bare ones
      share the first batch with at most one other. */
  ghost predicate BareLead(t: Episodes, e: nat) {
    !exists x, y, z :: x != y && x in LoadableAhead(t, e) && y in LoadableAhead(t, e) && z in BareAhead(t, e)
                       && IsSooner(t, x, z) && IsSooner(t, y, z)
  }

  /** A batch with two of them leaves a bare one out. */
  lemma TwoLoadable(t: Episodes, cap: nat, q: seq<nat>, e: nat, x: nat, y: nat)
    requires First(Undistilled(t), Sooner(t), cap, q) && e in Undistilled(t) && e !in q && x != y
    requires |BareAhead(t, e)| + 1 == cap
    requires x in q && x in t && t[x].raws != {} && y in q && y in t && t[y].raws != {}
    ensures !BareLead(t, e)
  {
    SoonerTotal(t);
    FirstIsDistinct(Undistilled(t), Sooner(t), cap, q);
    FullBatchAhead(t, cap, q, e);
    DistinctSize(q);
    var i :| 0 <= i < |q| && q[i] == x;
    var j :| 0 <= j < |q| && q[j] == y;
    assert q[i] in Undistilled(t) && q[j] in Undistilled(t);
    NotAllListed(BareAhead(t, e), x, y, Elements(q));
    var z :| z in BareAhead(t, e) && z !in q;
    assert Sooner(t)(q[i], z) && Sooner(t)(q[j], z);
  }

  lemma NotAllListed(s: set<nat>, x: nat, y: nat, q: set<nat>)
    requires x !in s && y !in s && x != y && x in q && y in q && |q| == |s| + 1
    ensures exists z :: z in s && z !in q
  {
    if s <= q {
      SubsetSizes(s + {x} + {y}, q);
    }
  }

  /** One place left, no context: every pass loads at most one episode. */
  ghost predicate Stalled(t: Episodes, e: nat, cap: nat) {
    && e in Undistilled(t) && |BareAhead(t, e)| + 1 == cap
    && LoadableAhead(t, e) != {} && BareLead(t, e) && !HasContext(t)
  }

  lemma ShortOfE(t: Episodes, cap: nat, q: seq<nat>, e: nat, x: nat)
    requires First(Undistilled(t), Sooner(t), cap, q) && e in Undistilled(t)
    requires |BareAhead(t, e)| + 1 == cap && x in LoadableAhead(t, e)
    ensures e !in q
  {
    if e in q {
      SoonerTotal(t);
      FirstIsDistinct(Undistilled(t), Sooner(t), cap, q);
      DistinctSize(q);
      var k :| 0 <= k < |q| && q[k] == e;
      forall y | y in BareAhead(t, e) + {x}
        ensures y in q
      {
        FirstIsClosed(Undistilled(t), Sooner(t), cap, q, k, y);
      }
      SubsetSizes(BareAhead(t, e) + {x} + {e}, Elements(q));
    }
  }

  lemma TwoLoaded(t: Episodes, all: seq<nat>) returns (x: nat, y: nat)
    requires (forall k :: 0 <= k < |all| ==> all[k] in t) && Distinct(all) && |Loaded(t, all)| >= 2
    ensures x != y && x in all && y in all && x in t && y in t && t[x].raws != {} && t[y].raws != {}
  {
    LoadedIs(t, all);
    x, y := Loaded(t, all)[0], Loaded(t, all)[1];
    assert x in Loaded(t, all) && y in Loaded(t, all);
  }

  lemma StalledPassIdles(t: Episodes, ev: Event, t': Episodes, e: nat, cap: nat)
    requires Step(t, ev, t') && Attentive(ev, cap) && Stalled(t, e, cap)
    ensures t' == t && !InBatch(ev, e)
  {
    var p := ev.pass;
    var a :| a in LoadableAhead(t, e);
    ShortOfE(t, cap, p.batch, e, a);
    if p.batch != [] {
      BatchAndContext(t, ev.settings, ev.answered, p, t');
      HasContextIff(t, p.context);
      var all := p.batch + p.context;
      assert forall k :: 0 <= k < |all| ==> all[k] in t;
      if |Loaded(t, all)| >= 2 {
        var x, y := TwoLoaded(t, all);
        TwoLoadable(t, cap, p.batch, e, x, y);
      }
    }
  }

  lemma {:induction false} StaysStalled(ts: seq<Episodes>, es: seq<Event>, e: nat, cap: nat, n: nat)
    requires Run(ts, es) && (forall k :: 0 <= k < |es| ==> Attentive(es[k], cap)) && n <= |es|
    requires Stalled(ts[0], e, cap)
    ensures ts[n] == ts[0] && !TakenIn(es, e, n)
  {
    if n > 0 {
      StaysStalled(ts, es, e, cap, n - 1);
      StepOf(ts, es, n - 1);
      StalledPassIdles(ts[n - 1], es[n - 1], ts[n], e, cap);
    }
  }

  lemma NothingAheadIsTaken(t: Episodes, ev: Event, t': Episodes, e: nat, cap: nat)
    requires Step(t, ev, t') && Attentive(ev, cap) && e in Undistilled(t)
    requires |BareAhead(t, e)| + 1 == cap && LoadableAhead(t, e) == {}
    ensures InBatch(ev, e)
  {
    if !InBatch(ev, e) {
      var rest := LoadableInBatch(t, cap, ev.pass.batch, e);
    }
  }

  /** With exactly one place left and at most one episode with lineage before the last bare
      one: `e` is taken if and only if nothing with lineage is ahead of it or some listed
      distilled episode has lineage. */
  lemma LastPlaceIff(ts: seq<Episodes>, es: seq<Event>, e: nat, cap: nat)
    requires Run(ts, es) && forall k :: 0 <= k < |es| ==> Attentive(es[k], cap)
    requires e in Undistilled(ts[0]) && |es| >= |Tokens(ts[0], e)|
    requires |BareAhead(ts[0], e)| + 1 == cap && BareLead(ts[0], e)
    ensures TakenIn(es, e, |es|) <==> LoadableAhead(ts[0], e) == {} || HasContext(ts[0])
  {
    OwnToken(ts[0], e);
    if HasContext(ts[0]) {
      OpenHeadIsPassed(ts, es, e, cap);
    } else if LoadableAhead(ts[0], e) == {} {
      StepOf(ts, es, 0);
      NothingAheadIsTaken(ts[0], es[0], ts[1], e, cap);
    } else {
      StaysStalled(ts, es, e, cap, |es|);
    }
  }

  /** The two that come before a bare one are both listed, or the bare one would be too. */
  lemma CrowdIsListed(t: Episodes, cap: nat, q: seq<nat>, e: nat) returns (x: nat, y: nat)
    requires First(Undistilled(t), Sooner(t), cap, q) && e in Undistilled(t) && e !in q
    requires |BareAhead(t, e)| + 1 == cap && !BareLead(t, e)
    ensures x != y && x in q && y in q && x in LoadableAhead(t, e) && y in LoadableAhead(t, e)
  {
    SoonerTotal(t);
    var rest := LoadableInBatch(t, cap, q, e);
    if |rest| >= 2 {
      x, y := TwoInSet(rest);
    } else {
      var z;
      x, y, z :| x != y && x in LoadableAhead(t, e) && y in LoadableAhead(t, e) && z in BareAhead(t, e)
                 && IsSooner(t, x, z) && IsSooner(t, y, z);
      BareIsListed(t, cap, q, e, rest, z);
      var k :| 0 <= k < |q| && q[k] == z;
      FirstIsClosed(Undistilled(t), Sooner(t), cap, q, k, x);
      FirstIsClosed(Undistilled(t), Sooner(t), cap, q, k, y);
    }
  }

  lemma BareIsListed(t: Episodes, cap: nat, q: seq<nat>, e: nat, rest: set<nat>, z: nat)
    requires First(Undistilled(t), Sooner(t), cap, q) && e in Undistilled(t) && e !in q
    requires |BareAhead(t, e)| + 1 == cap && z in BareAhead(t, e)
    requires rest == (set x | x in q && x in LoadableAhead(t, e)) && |rest| <= 1
    ensures z in q
  {
    FullBatchAhead(t, cap, q, e);
    SoonerTotal(t);
    FirstIsDistinct(Undistilled(t), Sooner(t), cap, q);
    DistinctSize(q);
    assert |BareAhead(t, e) - {z}| == |BareAhead(t, e)| - 1;
    if z !in q {
      forall x | x in q
        ensures x in rest + (BareAhead(t, e) - {z})
      {
        var k :| 0 <= k < |q| && q[k] == x;
        assert q[k] in Undistilled(t) && IsSooner(t, q[k], e);
      }
      SubsetSizes(Elements(q), rest + (BareAhead(t, e) - {z}));
    }
  }

  /** One pass, one place left: while something with lineage is ahead of it, `e` is left out,
      and the pass changes nothing if and only if the bare ones come before all of those but
      one and the context holds nothing to cluster with. */
  lemma LastPlaceIdlesIff(t: Episodes, ev: Event, t': Episodes, e: nat, cap: nat)
    requires Step(t, ev, t') && Attentive(ev, cap) && e in Undistilled(t)
    requires |BareAhead(t, e)| + 1 == cap && LoadableAhead(t, e) != {}
    ensures !InBatch(ev, e) && (t' == t <==> BareLead(t, e) && !HasContext(t))
  {
    var a :| a in LoadableAhead(t, e);
    ShortOfE(t, cap, ev.pass.batch, e, a);
    if HasContext(t) {
      OpenPassMoves(t, ev.settings, ev.answered, ev.pass, t', e);
    } else if BareLead(t, e) {
      StalledPassIdles(t, ev, t', e, cap);
    } else {
      var x, y := CrowdIsListed(t, cap, ev.pass.batch, e);
      LoadedMoves(t, ev.settings, ev.answered, ev.pass, t', x, y);
    }
  }

  /** Two episodes on one topic, then one without lineage, then one more. */
  const TWO_THEN_BARE: Episodes := map[0 := Fresh({0}), 1 := Fresh({1}), 2 := Fresh({}), 3 := Fresh({3})]
  const TWO_MARKED: Episodes :=
    map[0 := Fresh({0}).(marked := true), 1 := Fresh({1}).(marked := true), 2 := Fresh({}), 3 := Fresh({3})]

  lemma TwoAheadAre()
    ensures LoadableAhead(TWO_THEN_BARE, 3) == {0, 1} && BareAhead(TWO_THEN_BARE, 3) == {2}
    ensures !HasContext(TWO_THEN_BARE) && 3 in Undistilled(TWO_THEN_BARE)
    ensures First(Undistilled(TWO_THEN_BARE), Sooner(TWO_THEN_BARE), 2, [0, 1])
    ensures First(Distilled(TWO_THEN_BARE), Newer(TWO_THEN_BARE), CONTEXT, [])
  {
    var t := TWO_THEN_BARE;
    assert Undistilled(t) == {0, 1, 2, 3};
    assert |{0, 1, 2, 3}| == 4;
    assert Distilled(t) == {};
    assert IsSooner(t, 0, 1) && IsSooner(t, 0, 2) && IsSooner(t, 0, 3) && IsSooner(t, 1, 2) && IsSooner(t, 1, 3);
  }

  lemma TwoAheadAreConsumed(answered: Answered)
    requires forall g: seq<nat> :: answered(g)
    ensures Consumed(TWO_THEN_BARE, [0, 1], [[0, 1]], answered) == TWO_MARKED
  {
    var ids, groups := [0, 1], [[0, 1]];
    assert groups[0][0] == 0 && groups[0][1] == 1;
    assert IsMember(ids, groups[0], 0) && IsMember(ids, groups[0], 1);
    forall x
      ensures !IsAlone(ids, groups, x)
      ensures IsConsumed(ids, groups, answered, x) <==> x == 0 || x == 1
    {
    }
    assert Consumed(TWO_THEN_BARE, ids, groups, answered).Keys == TWO_MARKED.Keys;
  }

  lemma TwoAheadLoad()
    ensures Loaded(TWO_THEN_BARE, [0, 1]) == [0, 1] && Items(TWO_THEN_BARE, [0, 1]) == [ALIKE, ALIKE]
  {
    LoadedTwo(TWO_THEN_BARE, 0, 1);
  }

  lemma TwoAheadPass(norm: Vec -> real, answered: Answered)
    requires forall g: seq<nat> :: answered(g)
    ensures IsPass(TWO_THEN_BARE, Pairs(norm), answered, Pass([0, 1], [], [[0, 1]]), TWO_MARKED)
  {
    TwoAheadAre();
    PairClusters(norm);
    assert [0, 1] + [] == [0, 1];
    TwoAheadLoad();
    TwoAheadAreConsumed(answered);
  }

  lemma TwoAheadAreMarked(ts: seq<Episodes>, es: seq<Event>, norm: Vec -> real, answered: Answered)
    requires Run(ts, es) && Constant(es, Pairs(norm), answered) && ts[0] == TWO_THEN_BARE && |es| >= 1
    requires forall g: seq<nat> :: answered(g)
    ensures ts[1] == TWO_MARKED
  {
    TwoAheadPass(norm, answered);
    FirstPassIs(ts, es, Pairs(norm), answered, Pass([0, 1], [], [[0, 1]]), TWO_MARKED);
  }

  lemma FirstPassIs(ts: seq<Episodes>, es: seq<Event>, s: Settings, answered: Answered, p: Pass, t': Episodes)
    requires Run(ts, es) && Constant(es, s, answered) && |es| >= 1 && IsPass(ts[0], s, answered, p, t')
    ensures ts[1] == t'
  {
    PassAt(ts, es, s, answered, 0);
    PassIsDeterministic(ts[0], s, answered, p, t', es[0].pass, ts[1]);
  }

  lemma NextIsTaken(ts: seq<Episodes>, es: seq<Event>, norm: Vec -> real, answered: Answered)
    requires Run(ts, es) && Constant(es, Pairs(norm), answered) && |es| >= 2 && ts[1] == TWO_MARKED
    requires forall g: seq<nat> :: answered(g)
    ensures TakenIn(es, 3, |es|)
  {
    MarkedAhead();
    StepOf(ts, es, 1);
    assert IsConstant(es[1], Pairs(norm), answered);
    NothingAheadIsTaken(ts[1], es[1], ts[2], 3, 2);
  }

  /** Where two with lineage come first, the last place is not lost though nothing is listed
      as context: the first pass consumes the two, the second takes what was behind. */
  lemma TwoAheadGiveWay(ts: seq<Episodes>, es: seq<Event>, norm: Vec -> real, answered: Answered)
    requires Run(ts, es) && Constant(es, Pairs(norm), answered) && ts[0] == TWO_THEN_BARE && |es| >= 2
    requires forall g: seq<nat> :: answered(g)
    ensures |BareAhead(ts[0], 3)| + 1 == 2 && LoadableAhead(ts[0], 3) != {} && !HasContext(ts[0])
    ensures TakenIn(es, 3, |es|)
  {
    TwoAheadAre();
    TwoAheadAreMarked(ts, es, norm, answered);
    NextIsTaken(ts, es, norm, answered);
  }

  lemma MarkedAhead()
    ensures 3 in Undistilled(TWO_MARKED) && BareAhead(TWO_MARKED, 3) == {2} && LoadableAhead(TWO_MARKED, 3) == {}
  {
    assert IsSooner(TWO_MARKED, 2, 3);
  }
}
