/** Semantic facts: where a distilled fact's lineage and date come from, and the forest
    that one fact superseding another builds up over any history. */
module Facts {
  import opened Prelude
  import opened Clustering
  import opened Distillation

  /** `raws` and `sources` are the `derived_from` and `distilled_from` edges. */
  datatype Fact = Fact(content: string, time: Option<int>, embedding: Option<Vec>, raws: set<nat>, sources: set<nat>)

  /** A fact's id is its position; a `supersedes` edge is (newer, older). */
  datatype FactBase = FactBase(facts: seq<Fact>, supersedes: set<(nat, nat)>)

  /** What the provider answers for one fact. */
  datatype Draft = Draft(content: string, cites: seq<nat>)

  type Near = (Vec, Vec) -> bool

  // ---------------------------------------------------------------------------
  // Lineage and date
  // ---------------------------------------------------------------------------

  function Or(a: Option<int>, b: Option<int>): Option<int> {
    if a.Some? then a else b
  }

  /** When the episode ended, as far as is known. */
  function EvidenceTime(e: Episode): Option<int> {
    Or(Or(e.endedAt, Or(e.startedAt, e.eventTime)), Or(e.startedAt, e.eventTime))
  }

  /** The cited episodes that are in the cluster. */
  function Cited(members: seq<nat>, cites: seq<nat>): seq<nat> {
    if cites == [] then []
    else Cited(members, cites[..|cites| - 1]) +
         if cites[|cites| - 1] in members then [cites[|cites| - 1]] else []
  }

  /** ... or the whole cluster when nothing valid is cited. */
  function Evidence(members: seq<nat>, cites: seq<nat>): seq<nat> {
    if Cited(members, cites) == [] then members else Cited(members, cites)
  }

  function RawsOf(t: Episodes, evidence: seq<nat>): set<nat> {
    if evidence == [] then {}
    else RawsOf(t, evidence[..|evidence| - 1]) +
         if evidence[|evidence| - 1] in t then t[evidence[|evidence| - 1]].raws else {}
  }

  function Later(a: Option<int>, b: Option<int>): Option<int> {
    if a.None? then b else if b.None? then a else Some(Max(a.value, b.value))
  }

  function Latest(t: Episodes, evidence: seq<nat>): Option<int> {
    if evidence == [] then None
    else Later(Latest(t, evidence[..|evidence| - 1]),
               if evidence[|evidence| - 1] in t then EvidenceTime(t[evidence[|evidence| - 1]]) else None)
  }

  /** The fact a draft becomes. */
  ghost function FactOf(t: Episodes, members: seq<nat>, draft: Draft, embedding: Option<Vec>): Fact {
    var evidence := Evidence(members, draft.cites);
    Fact(draft.content, Latest(t, evidence), embedding, RawsOf(t, evidence), Elements(evidence))
  }

  lemma {:induction false} CitedIs(members: seq<nat>, cites: seq<nat>)
    ensures forall x: nat :: x in Cited(members, cites) <==> x in cites && x in members
  {
    if cites != [] {
      CitedIs(members, cites[..|cites| - 1]);
      assert cites == cites[..|cites| - 1] + [cites[|cites| - 1]];
    }
  }

  lemma {:induction false} RawsOfIs(t: Episodes, evidence: seq<nat>)
    ensures forall r: nat :: r in RawsOf(t, evidence) <==> exists x :: x in evidence && x in t && r in t[x].raws
  {
    if evidence != [] {
      var init, last := evidence[..|evidence| - 1], evidence[|evidence| - 1];
      RawsOfIs(t, init);
      assert evidence == init + [last];
      forall r: nat
        ensures r in RawsOf(t, evidence) <==> exists x :: x in evidence && x in t && r in t[x].raws
      {
        if x :| x in evidence && x in t && r in t[x].raws {
          assert x in init || x == last;
        }
        if r in RawsOf(t, init) {
          var x :| x in init && x in t && r in t[x].raws;
          assert x in evidence;
        } else if r in RawsOf(t, evidence) {
          assert last in evidence && last in t && r in t[last].raws;
        }
      }
    }
  }

  /** The last that is known of the episode is this time: its end, or without one its start,
      or without that its event time. */
  ghost predicate LastKnown(e: Episode, at: int) {
    && (e.endedAt.Some? ==> e.endedAt.value == at)
    && (e.endedAt.None? && e.startedAt.Some? ==> e.startedAt.value == at)
    && (e.endedAt.None? && e.startedAt.None? ==> e.eventTime == Some(at))
  }

  /** The newest of these times, and none exactly when no episode has any time at all. */
  ghost predicate IsLatest(t: Episodes, ids: seq<nat>, time: Option<int>) {
    match time
    case None => forall x :: x in ids && x in t ==> t[x].endedAt.None? && t[x].startedAt.None? && t[x].eventTime.None?
    case Some(at) =>
      && (exists x :: x in ids && x in t && LastKnown(t[x], at))
      && (forall x, other :: x in ids && x in t && LastKnown(t[x], other) ==> other <= at)
  }

  lemma EvidenceTimeIs(e: Episode)
    ensures match EvidenceTime(e)
            case None => e.endedAt.None? && e.startedAt.None? && e.eventTime.None?
            case Some(at) => LastKnown(e, at) && forall other :: LastKnown(e, other) ==> other == at
    ensures EvidenceTime(e).None? ==> forall other :: !LastKnown(e, other)
  {
  }

  lemma {:induction false} LatestIs(t: Episodes, evidence: seq<nat>)
    ensures IsLatest(t, evidence, Latest(t, evidence))
  {
    if evidence != [] {
      var init, last := evidence[..|evidence| - 1], evidence[|evidence| - 1];
      LatestIs(t, init);
      assert evidence == init + [last];
      assert forall x :: x in evidence <==> x in init || x == last;
      if last in t { EvidenceTimeIs(t[last]); }
      var before := Latest(t, init);
      if before.Some? {
        var x :| x in init && x in t && LastKnown(t[x], before.value);
        assert x in evidence;
      } else {
        NoneKnown(t, init);
      }
      assert last in evidence;
    }
  }

  lemma NoneKnown(t: Episodes, ids: seq<nat>)
    requires IsLatest(t, ids, None)
    ensures forall x, other :: x in ids && x in t ==> !LastKnown(t[x], other)
  {
  }

  /** A distilled fact rests on a non-empty part of its cluster - what the provider cited
      of it, or all of it - on all the raw rows of that part and no others, and is dated by
      the newest of that evidence. */
  lemma FactLineage(t: Episodes, members: seq<nat>, draft: Draft, embedding: Option<Vec>)
    requires members != [] && forall k :: 0 <= k < |members| ==> members[k] in t && t[members[k]].raws != {}
    ensures var f := FactOf(t, members, draft, embedding);
      && f.sources != {} && (forall x :: x in f.sources ==> x in members)
      && ((exists x :: x in draft.cites && x in members) ==>
            forall x :: x in f.sources <==> x in draft.cites && x in members)
      && ((forall x :: x in draft.cites ==> x !in members) ==> forall x :: x in members ==> x in f.sources)
      && f.raws != {} && (forall r: nat :: r in f.raws <==> exists x :: x in f.sources && x in t && r in t[x].raws)
      && IsLatest(t, Evidence(members, draft.cites), f.time)
      && forall x :: x in Evidence(members, draft.cites) <==> x in f.sources
  {
    var evidence := Evidence(members, draft.cites);
    CitedIs(members, draft.cites);
    RawsOfIs(t, evidence);
    LatestIs(t, evidence);
    assert forall x :: x in Elements(evidence) <==> x in evidence;
    var x := evidence[0];
    assert x in evidence && x in members;
    var r :| r in t[x].raws;
    assert r in RawsOf(t, evidence);
  }

  // ---------------------------------------------------------------------------
  // Supersession
  // ---------------------------------------------------------------------------

  predicate IsRetired(fb: FactBase, o: nat) {
    exists e :: e in fb.supersedes && e.1 == o
  }

  /** Strictly older evidence; an undated fact counts as older than any dated one. */
  ghost predicate Outdates(newer: Fact, older: Fact) {
    newer.time.Some? && (older.time.None? || older.time.value < newer.time.value)
  }

  ghost predicate Qualifies(near: Near, newer: Fact, older: Fact) {
    && Outdates(newer, older)
    && newer.embedding.Some? && older.embedding.Some? && near(newer.embedding.value, older.embedding.value)
  }

  /** The active facts a new fact retires. */
  ghost function Retires(fb: FactBase, near: Near, fact: Fact): set<nat> {
    set o: nat | o < |fb.facts| && Qualifies(near, fact, fb.facts[o]) && !IsRetired(fb, o)
  }

  function Edges(n: nat, olds: set<nat>): set<(nat, nat)> {
    set o | o in olds :: (n, o)
  }

  ghost function Added(fb: FactBase, near: Near, fact: Fact): FactBase {
    FactBase(fb.facts + [fact], fb.supersedes + Edges(|fb.facts|, Retires(fb, near, fact)))
  }

  /** A fact as it arrives, with the similarity that was in force then. */
  datatype Arrival = Arrival(fact: Fact, near: Near)

  ghost function Build(arrivals: seq<Arrival>): FactBase {
    if arrivals == [] then FactBase([], {})
    else
      var last := arrivals[|arrivals| - 1];
      Added(Build(arrivals[..|arrivals| - 1]), last.near, last.fact)
  }

  /** Arrival `n` is the first after `o` that qualifies to retire it. */
  ghost predicate FirstToRetire(arrivals: seq<Arrival>, n: nat, o: nat) {
    && o < n < |arrivals|
    && Qualifies(arrivals[n].near, arrivals[n].fact, arrivals[o].fact)
    && forall k :: o < k < n ==> !Qualifies(arrivals[k].near, arrivals[k].fact, arrivals[o].fact)
  }

  /** The edges over any history: each fact is retired by the first later arrival that is
      strictly newer and near enough, by nothing else, and stays active without one. */
  lemma {:induction false} EdgesAre(arrivals: seq<Arrival>)
    ensures |Build(arrivals).facts| == |arrivals|
    ensures forall k :: 0 <= k < |arrivals| ==> Build(arrivals).facts[k] == arrivals[k].fact
    ensures forall n: nat, o: nat :: (n, o) in Build(arrivals).supersedes <==> FirstToRetire(arrivals, n, o)
  {
    if arrivals != [] {
      var init, last := arrivals[..|arrivals| - 1], arrivals[|arrivals| - 1];
      EdgesAre(init);
      forall n: nat, o: nat
        ensures (n, o) in Build(arrivals).supersedes <==> FirstToRetire(arrivals, n, o)
      {
        EdgeStep(init, last, n, o);
        assert arrivals == init + [last];
      }
    }
  }

  lemma EdgeStep(init: seq<Arrival>, last: Arrival, n: nat, o: nat)
    requires |Build(init).facts| == |init|
    requires forall k :: 0 <= k < |init| ==> Build(init).facts[k] == init[k].fact
    requires forall n: nat, o: nat :: (n, o) in Build(init).supersedes <==> FirstToRetire(init, n, o)
    ensures (n, o) in Added(Build(init), last.near, last.fact).supersedes <==> FirstToRetire(init + [last], n, o)
  {
    var arrivals, fb := init + [last], Build(init);
    var retired := Retires(fb, last.near, last.fact);
    assert arrivals[..|init|] == init;
    PrefixQualifies(arrivals, init, n, o);
    assert (n, o) in Edges(|fb.facts|, retired) <==> n == |init| && o in retired;
    if n == |init| && o < n {
      assert fb.facts[o] == arrivals[o].fact;
      if IsRetired(fb, o) {
        var e :| e in fb.supersedes && e.1 == o;
        assert (e.0, o) in fb.supersedes;
        PrefixQualifies(arrivals, init, e.0, o);
        assert Qualifies(arrivals[e.0].near, arrivals[e.0].fact, arrivals[o].fact);
      } else {
        QualifiedIsRetired(init, o);
        forall k | o < k < |init|
          ensures !Qualifies(arrivals[k].near, arrivals[k].fact, arrivals[o].fact)
        {
          assert arrivals[k] == init[k];
        }
      }
    }
  }

  lemma PrefixQualifies(arrivals: seq<Arrival>, init: seq<Arrival>, n: nat, o: nat)
    requires |init| < |arrivals| && arrivals[..|init|] == init
    ensures n < |init| ==> (FirstToRetire(arrivals, n, o) <==> FirstToRetire(init, n, o))
    ensures forall k :: 0 <= k < |init| ==> arrivals[k] == init[k]
  {
    forall k | 0 <= k < |init|
      ensures arrivals[k] == init[k]
    {
      assert arrivals[k] == arrivals[..|init|][k];
    }
  }

  /** A fact that has met a qualifying arrival is retired. */
  lemma QualifiedIsRetired(init: seq<Arrival>, o: nat)
    requires forall n: nat :: (n, o) in Build(init).supersedes <==> FirstToRetire(init, n, o)
    ensures forall k :: o < k < |init| && Qualifies(init[k].near, init[k].fact, init[o].fact) ==> IsRetired(Build(init), o)
  {
    forall k | o < k < |init| && Qualifies(init[k].near, init[k].fact, init[o].fact)
      ensures IsRetired(Build(init), o)
    {
      var n := LeastQualified(init, o, k);
      assert (n, o).1 == o && (n, o) in Build(init).supersedes;
    }
  }

  lemma {:induction false} LeastQualified(init: seq<Arrival>, o: nat, k: nat) returns (n: nat)
    requires o < k < |init| && Qualifies(init[k].near, init[k].fact, init[o].fact)
    ensures FirstToRetire(init, n, o)
    decreases k
  {
    if j: nat :| o < j < k && Qualifies(init[j].near, init[j].fact, init[o].fact) {
      n := LeastQualified(init, o, j);
    } else {
      n := k;
    }
  }

  /** At most one incoming edge each, from a strictly later dated fact to an earlier or
      undated one that it was near to. */
  ghost predicate Forest(fb: FactBase) {
    && (forall n: nat, o: nat :: (n, o) in fb.supersedes ==> o < n < |fb.facts| && Outdates(fb.facts[n], fb.facts[o]))
    && (forall m: nat, n: nat, o: nat :: (m, o) in fb.supersedes && (n, o) in fb.supersedes ==> m == n)
  }

  lemma BuildIsForest(arrivals: seq<Arrival>)
    ensures Forest(Build(arrivals))
  {
    EdgesAre(arrivals);
    forall m: nat, n: nat, o: nat | (m, o) in Build(arrivals).supersedes && (n, o) in Build(arrivals).supersedes
      ensures m == n
    {
      assert FirstToRetire(arrivals, m, o) && FirstToRetire(arrivals, n, o);
    }
  }

  /** The end of the superseded-by walk. */
  ghost function Final(fb: FactBase, o: nat): (r: nat)
    requires Forest(fb) && o < |fb.facts|
    ensures r < |fb.facts| && !IsRetired(fb, r)
    ensures r == o || Outdates(fb.facts[r], fb.facts[o])
    decreases |fb.facts| - o
  {
    if IsRetired(fb, o) then
      var e :| e in fb.supersedes && e.1 == o;
      assert (e.0, o) in fb.supersedes;
      Final(fb, e.0)
    else o
  }

  ghost predicate IsWalk(fb: FactBase, w: seq<nat>) {
    w != [] && forall k :: 0 <= k < |w| - 1 ==> (w[k + 1], w[k]) in fb.supersedes
  }

  /** Every walk along superseded-by ends, and a walk that cannot go on has reached the
      one active fact that stands for where it started. */
  lemma {:induction false} WalksMeetAtFinal(fb: FactBase, w: seq<nat>)
    requires Forest(fb) && IsWalk(fb, w) && w[0] < |fb.facts|
    ensures |w| <= |fb.facts| - w[0] && w[|w| - 1] < |fb.facts|
    ensures Final(fb, w[|w| - 1]) == Final(fb, w[0])
    ensures !IsRetired(fb, w[|w| - 1]) <==> w[|w| - 1] == Final(fb, w[0])
    decreases |w|
  {
    if |w| > 1 {
      var rest := w[1..];
      assert (w[1], w[0]) in fb.supersedes;
      assert forall k :: 0 <= k < |rest| - 1 ==> (rest[k + 1], rest[k]) == (w[k + 2], w[k + 1]);
      WalksMeetAtFinal(fb, rest);
      NextFinal(fb, w[0], w[1]);
      assert rest[|rest| - 1] == w[|w| - 1];
    }
  }

  lemma NextFinal(fb: FactBase, o: nat, n: nat)
    requires Forest(fb) && (n, o) in fb.supersedes
    ensures o < |fb.facts| && n < |fb.facts| && Final(fb, o) == Final(fb, n)
  {
    assert (n, o).1 == o;
    assert IsRetired(fb, o);
    var e :| e in fb.supersedes && e.1 == o && Final(fb, o) == Final(fb, e.0);
    assert (e.0, o) in fb.supersedes;
  }

  /** Closing a window is forward-only: the same two facts distilled in the other order
      leave the older one active, so a rebuild that distills in a different order need not
      reproduce the closures. */
  lemma ClosureDependsOnOrder(near: Near, newer: Fact, older: Fact)
    requires Qualifies(near, newer, older)
    ensures (1, 0) in Build([Arrival(older, near), Arrival(newer, near)]).supersedes
    ensures Build([Arrival(newer, near), Arrival(older, near)]).supersedes == {}
  {
    var a, b := [Arrival(older, near), Arrival(newer, near)], [Arrival(newer, near), Arrival(older, near)];
    EdgesAre(a);
    EdgesAre(b);
    BuildIsForest(b);
    assert FirstToRetire(a, 1, 0);
    forall n: nat, o: nat
      ensures (n, o) !in Build(b).supersedes
    {
      assert !FirstToRetire(b, n, o);
    }
    assert forall e :: e in Build(b).supersedes <==> (e.0, e.1) in Build(b).supersedes;
  }

  /** Arrival `n` comes after `o` and qualifies to retire it. */
  ghost predicate LaterQualifier(arrivals: seq<Arrival>, n: nat, o: nat) {
    o < n < |arrivals| && Qualifies(arrivals[n].near, arrivals[n].fact, arrivals[o].fact)
  }

  /** A fact is retired exactly when some later arrival qualifies. */
  lemma RetiredIff(arrivals: seq<Arrival>, o: nat)
    ensures IsRetired(Build(arrivals), o) <==> exists n: nat :: LaterQualifier(arrivals, n, o)
  {
    EdgesAre(arrivals);
    if IsRetired(Build(arrivals), o) {
      var e :| e in Build(arrivals).supersedes && e.1 == o;
      assert (e.0, o) in Build(arrivals).supersedes;
      assert LaterQualifier(arrivals, e.0, o);
    }
    if n: nat :| LaterQualifier(arrivals, n, o) {
      QualifiedIsRetired(arrivals, o);
    }
  }

  /** `b` holds the arrivals of `a` in another order: `to` and `back` are inverse. */
  ghost predicate Reordered(a: seq<Arrival>, b: seq<Arrival>, to: seq<nat>, back: seq<nat>) {
    && |a| == |b| == |to| == |back|
    && (forall i :: 0 <= i < |a| ==> to[i] < |b| && back[to[i]] == i && b[to[i]] == a[i])
    && (forall j :: 0 <= j < |b| ==> back[j] < |a| && to[back[j]] == j)
  }

  /** Some arrival qualifies to retire `o`, and comes later in one order but in the other
      every one that does comes earlier. */
  ghost predicate OrderDecides(a: seq<Arrival>, b: seq<Arrival>, to: seq<nat>, o: nat)
    requires |a| == |b| == |to| && o < |a|
  {
    (exists n: nat :: LaterQualifier(a, n, o)) != (exists n: nat :: LaterQualifier(b, n, to[o]))
  }

  ghost predicate SameClosures(a: seq<Arrival>, b: seq<Arrival>, to: seq<nat>)
    requires |a| == |to|
  {
    forall o: nat :: o < |a| ==> (IsRetired(Build(a), o) <==> IsRetired(Build(b), to[o]))
  }

  /** Two orders of the same facts close the same windows if and only if each fact has a
      later qualifier in one exactly when it has one in the other. */
  lemma ClosuresAgreeIff(a: seq<Arrival>, b: seq<Arrival>, to: seq<nat>, back: seq<nat>)
    requires Reordered(a, b, to, back)
    ensures SameClosures(a, b, to) <==> forall o: nat :: o < |a| ==> !OrderDecides(a, b, to, o)
  {
    forall o: nat | o < |a|
      ensures (IsRetired(Build(a), o) <==> IsRetired(Build(b), to[o])) <==> !OrderDecides(a, b, to, o)
    {
      RetiredIff(a, o);
      RetiredIff(b, to[o]);
    }
  }

  /** Nothing arrives after a fact that it outdates. */
  ghost predicate OldestFirst(arrivals: seq<Arrival>) {
    forall i, j :: 0 <= i < j < |arrivals| ==> !Outdates(arrivals[i].fact, arrivals[j].fact)
  }

  ghost predicate OneSimilarity(arrivals: seq<Arrival>, near: Near) {
    forall k :: 0 <= k < |arrivals| ==> arrivals[k].near == near
  }

  /** Some arrival, wherever it stands, qualifies to retire this fact. */
  ghost predicate Outranked(arrivals: seq<Arrival>, near: Near, fact: Fact) {
    exists n: nat :: n < |arrivals| && Qualifies(near, arrivals[n].fact, fact)
  }

  /** Distilled oldest first, a fact is retired exactly when any other qualifies: the closures
      are a function of the facts alone. */
  lemma OldestFirstRetires(arrivals: seq<Arrival>, near: Near, o: nat)
    requires OldestFirst(arrivals) && OneSimilarity(arrivals, near) && o < |arrivals|
    ensures IsRetired(Build(arrivals), o) <==> Outranked(arrivals, near, arrivals[o].fact)
  {
    RetiredIff(arrivals, o);
    if n: nat :| LaterQualifier(arrivals, n, o) {
      assert Qualifies(near, arrivals[n].fact, arrivals[o].fact);
    }
    if n: nat :| n < |arrivals| && Qualifies(near, arrivals[n].fact, arrivals[o].fact) {
      assert n != o;
      assert LaterQualifier(arrivals, n, o);
    }
  }

  /** A rebuild that distils the same facts oldest first, as the incremental path did,
      reproduces its closures. */
  lemma OldestFirstReproduces(a: seq<Arrival>, b: seq<Arrival>, to: seq<nat>, back: seq<nat>, near: Near)
    requires Reordered(a, b, to, back) && OneSimilarity(a, near) && OldestFirst(a) && OldestFirst(b)
    ensures SameClosures(a, b, to)
  {
    forall j | 0 <= j < |b|
      ensures b[j].near == near
    {
      assert b[to[back[j]]] == a[back[j]];
    }
    forall o: nat | o < |a|
      ensures IsRetired(Build(a), o) <==> IsRetired(Build(b), to[o])
    {
      OldestFirstRetires(a, near, o);
      OldestFirstRetires(b, near, to[o]);
      SameOutranked(a, b, to, back, near, a[o].fact);
    }
  }

  lemma SameOutranked(a: seq<Arrival>, b: seq<Arrival>, to: seq<nat>, back: seq<nat>, near: Near, fact: Fact)
    requires Reordered(a, b, to, back)
    ensures Outranked(a, near, fact) <==> Outranked(b, near, fact)
  {
    if n: nat :| n < |a| && Qualifies(near, a[n].fact, fact) {
      assert b[to[n]] == a[n];
    }
    if n: nat :| n < |b| && Qualifies(near, b[n].fact, fact) {
      assert b[to[back[n]]] == a[back[n]];
    }
  }
}
