/** Which episodes a distillation pass takes, what it does to their markers, and how long
    an episode can wait for its turn. */
module Distillation {
  import opened Prelude
  import opened Batches
  import opened Clustering

  /** An episode as distillation sees it. `raws` is its lineage, `item` what it clusters
      on; `version` counts refreshes, each of which clears the markers. */
  datatype Episode = Episode(version: nat, attempts: nat, marked: bool,
                             startedAt: Option<int>, endedAt: Option<int>, eventTime: Option<int>,
                             raws: set<nat>, item: Item)

  type Episodes = map<nat, Episode>

  datatype Settings = Settings(canDistill: bool, cap: nat, params: Params)

  const CONTEXT := 200

  // ---------------------------------------------------------------------------
  // Batches
  // ---------------------------------------------------------------------------

  function Undistilled(t: Episodes): set<nat> {
    set x | x in t && !t[x].marked
  }

  function Distilled(t: Episodes): set<nat> {
    set x | x in t && t[x].marked
  }

  /** Earlier times first, no time last. */
  predicate Older(a: Option<int>, b: Option<int>) {
    a.Some? && (b.None? || a.value < b.value)
  }

  predicate SameTime(a: Option<int>, b: Option<int>) {
    a.Some? == b.Some? && (a.Some? ==> a.value == b.value)
  }

  /** Fewest attempts, then oldest, then id. */
  predicate IsSooner(t: Episodes, a: nat, b: nat) {
    a in t && b in t &&
    ( t[a].attempts < t[b].attempts
      || (t[a].attempts == t[b].attempts
          && (Older(t[a].eventTime, t[b].eventTime) || (SameTime(t[a].eventTime, t[b].eventTime) && a < b))))
  }

  /** Newest first, no time last, then id. */
  predicate IsNewer(t: Episodes, a: nat, b: nat) {
    a in t && b in t &&
    ( (t[a].eventTime.Some? && (t[b].eventTime.None? || t[a].eventTime.value > t[b].eventTime.value))
      || (SameTime(t[a].eventTime, t[b].eventTime) && a < b))
  }

  function Sooner(t: Episodes): Order {
    (a: nat, b: nat) => IsSooner(t, a, b)
  }

  function Newer(t: Episodes): Order {
    (a: nat, b: nat) => IsNewer(t, a, b)
  }

  lemma SoonerIsStrict(t: Episodes, a: nat, b: nat, c: nat)
    requires a in t && b in t && c in t
    ensures a == b || IsSooner(t, a, b) || IsSooner(t, b, a)
    ensures !(IsSooner(t, a, b) && IsSooner(t, b, a))
    ensures IsSooner(t, a, b) && IsSooner(t, b, c) ==> IsSooner(t, a, c)
  {
  }

  lemma NewerIsStrict(t: Episodes, a: nat, b: nat, c: nat)
    requires a in t && b in t && c in t
    ensures a == b || IsNewer(t, a, b) || IsNewer(t, b, a)
    ensures !(IsNewer(t, a, b) && IsNewer(t, b, a))
    ensures IsNewer(t, a, b) && IsNewer(t, b, c) ==> IsNewer(t, a, c)
  {
  }

  lemma SoonerTotal(t: Episodes)
    ensures StrictOrder(Undistilled(t), Sooner(t))
  {
    var pool, before := Undistilled(t), Sooner(t);
    forall a, b, c | a in pool && b in pool && c in pool
      ensures a == b || before(a, b) || before(b, a)
      ensures !(before(a, b) && before(b, a))
      ensures before(a, b) && before(b, c) ==> before(a, c)
    {
      SoonerIsStrict(t, a, b, c);
    }
  }

  lemma NewerTotal(t: Episodes)
    ensures StrictOrder(Distilled(t), Newer(t))
  {
    var pool, before := Distilled(t), Newer(t);
    forall a, b, c | a in pool && b in pool && c in pool
      ensures a == b || before(a, b) || before(b, a)
      ensures !(before(a, b) && before(b, a))
      ensures before(a, b) && before(b, c) ==> before(a, c)
    {
      NewerIsStrict(t, a, b, c);
    }
  }

  // ---------------------------------------------------------------------------
  // One pass
  // ---------------------------------------------------------------------------

  datatype Pass = Pass(batch: seq<nat>, context: seq<nat>, groups: seq<seq<nat>>)

  /** The listed episodes with lineage; the others cannot be cited and are skipped. */
  function Loaded(t: Episodes, ids: seq<nat>): (r: seq<nat>)
    requires forall k :: 0 <= k < |ids| ==> ids[k] in t
    ensures forall k :: 0 <= k < |r| ==> r[k] in t && r[k] in ids
  {
    if ids == [] then []
    else Loaded(t, ids[..|ids| - 1]) + if t[ids[|ids| - 1]].raws == {} then [] else [ids[|ids| - 1]]
  }

  function Items(t: Episodes, ids: seq<nat>): seq<Item>
    requires forall k :: 0 <= k < |ids| ==> ids[k] in t
  {
    seq(|ids|, k requires 0 <= k < |ids| => t[ids[k]].item)
  }

  function Members(ids: seq<nat>, g: seq<nat>): seq<nat>
    requires forall k :: 0 <= k < |g| ==> g[k] < |ids|
  {
    seq(|g|, k requires 0 <= k < |g| => ids[g[k]])
  }

  predicate IsMember(ids: seq<nat>, g: seq<nat>, x: nat) {
    exists k :: 0 <= k < |g| && g[k] < |ids| && ids[g[k]] == x
  }

  predicate IsAlone(ids: seq<nat>, groups: seq<seq<nat>>, x: nat) {
    exists c :: 0 <= c < |groups| && |groups[c]| < 2 && IsMember(ids, groups[c], x)
  }

  type Answered = seq<nat> -> bool

  function MembersOf(ids: seq<nat>, g: seq<nat>): seq<nat> {
    if forall k :: 0 <= k < |g| ==> g[k] < |ids| then Members(ids, g) else []
  }

  predicate IsConsumed(ids: seq<nat>, groups: seq<seq<nat>>, answered: Answered, x: nat) {
    exists c :: 0 <= c < |groups| && |groups[c]| >= 2 && IsMember(ids, groups[c], x) && answered(MembersOf(ids, groups[c]))
  }

  /** Singletons are bumped, answered clusters marked, everything else left as it was. */
  function Consumed(t: Episodes, ids: seq<nat>, groups: seq<seq<nat>>, answered: Answered): Episodes {
    map x | x in t ::
      if t[x].marked then t[x]
      else if IsAlone(ids, groups, x) then t[x].(attempts := t[x].attempts + 1)
      else if IsConsumed(ids, groups, answered, x) then t[x].(marked := true)
      else t[x]
  }

  ghost predicate IsPass(t: Episodes, s: Settings, answered: Answered, p: Pass, t': Episodes) {
    if !s.canDistill then t' == t && p == Pass([], [], [])
    else
      && First(Undistilled(t), Sooner(t), s.cap, p.batch)
      && if p.batch == [] then t' == t && p == Pass([], [], [])
         else
           && First(Distilled(t), Newer(t), CONTEXT, p.context)
           && var ids := Loaded(t, p.batch + p.context);
           if |ids| < 2 then t' == t && p.groups == []
           else IsClustering(s.params, Items(t, ids), p.groups) && t' == Consumed(t, ids, p.groups, answered)
  }

  // ---------------------------------------------------------------------------
  // What a pass reads, on the columns
  // ---------------------------------------------------------------------------

  /** Fewer attempts; with as many, the older, an undated one last; at the same time, by id. */
  ghost predicate IsAhead(t: Episodes, a: nat, b: nat)
    requires a in t && b in t
  {
    && t[a].attempts <= t[b].attempts
    && (t[a].attempts == t[b].attempts ==>
          && (t[b].eventTime.Some? ==> t[a].eventTime.Some? && t[a].eventTime.value <= t[b].eventTime.value)
          && (t[a].eventTime == t[b].eventTime ==> a < b))
  }

  /** The newer, an undated one last; at the same time, by id. */
  ghost predicate IsFresher(t: Episodes, a: nat, b: nat)
    requires a in t && b in t
  {
    && (t[b].eventTime.Some? ==> t[a].eventTime.Some? && t[a].eventTime.value >= t[b].eventTime.value)
    && (t[a].eventTime == t[b].eventTime ==> a < b)
  }

  /** The batch: undistilled, in order, as many as the cap, nothing left out that is ahead. */
  ghost predicate IsBatch(t: Episodes, cap: nat, q: seq<nat>) {
    && |q| <= cap && (forall k :: 0 <= k < |q| ==> q[k] in t && !t[q[k]].marked)
    && (forall j, k :: 0 <= j < k < |q| ==> IsAhead(t, q[j], q[k]))
    && (forall k, y :: 0 <= k < |q| && y in t && !t[y].marked && y !in q ==> IsAhead(t, q[k], y))
    && (|q| < cap ==> forall y :: y in t && !t[y].marked ==> y in q)
  }

  /** The context: distilled, newest first, at most 200. */
  ghost predicate IsContext(t: Episodes, q: seq<nat>) {
    && |q| <= 200 && (forall k :: 0 <= k < |q| ==> q[k] in t && t[q[k]].marked)
    && (forall j, k :: 0 <= j < k < |q| ==> IsFresher(t, q[j], q[k]))
    && (forall k, y :: 0 <= k < |q| && y in t && t[y].marked && y !in q ==> IsFresher(t, q[k], y))
    && (|q| < 200 ==> forall y :: y in t && t[y].marked ==> y in q)
  }

  lemma FirstTakesAll(pool: set<nat>, before: Order, cap: nat, q: seq<nat>)
    requires StrictOrder(pool, before) && First(pool, before, cap, q) && |q| < cap
    ensures forall y :: y in pool ==> y in q
  {
    FirstIsDistinct(pool, before, cap, q);
    DistinctSize(q);
    SubsetSizes(Elements(q), pool);
  }

  lemma BatchIs(t: Episodes, cap: nat, q: seq<nat>)
    requires First(Undistilled(t), Sooner(t), cap, q)
    ensures IsBatch(t, cap, q)
  {
    SoonerTotal(t);
    forall k | 0 <= k < |q|
      ensures q[k] in t && !t[q[k]].marked
    {
      assert q[k] in Undistilled(t);
    }
    forall j, k | 0 <= j < k < |q|
      ensures IsAhead(t, q[j], q[k])
    {
      assert Sooner(t)(q[j], q[k]);
    }
    forall k, y | 0 <= k < |q| && y in t && !t[y].marked && y !in q
      ensures IsAhead(t, q[k], y)
    {
      assert Sooner(t)(q[k], y);
    }
    if |q| < cap { FirstTakesAll(Undistilled(t), Sooner(t), cap, q); }
  }

  lemma ContextIs(t: Episodes, q: seq<nat>)
    requires First(Distilled(t), Newer(t), CONTEXT, q)
    ensures IsContext(t, q)
  {
    NewerTotal(t);
    forall k | 0 <= k < |q|
      ensures q[k] in t && t[q[k]].marked
    {
      assert q[k] in Distilled(t);
    }
    forall j, k | 0 <= j < k < |q|
      ensures IsFresher(t, q[j], q[k])
    {
      assert Newer(t)(q[j], q[k]);
    }
    forall k, y | 0 <= k < |q| && y in t && t[y].marked && y !in q
      ensures IsFresher(t, q[k], y)
    {
      assert Newer(t)(q[k], y);
    }
    if |q| < 200 { FirstTakesAll(Distilled(t), Newer(t), CONTEXT, q); }
  }

  /** A pass that can distil takes that batch and that context, and clusters the listed
      episodes that have lineage, each on its own embedding and entities. */
  lemma PassReads(t: Episodes, s: Settings, answered: Answered, p: Pass, t': Episodes)
    requires IsPass(t, s, answered, p, t') && s.canDistill
    ensures IsBatch(t, s.cap, p.batch)
    ensures p.batch != [] ==> IsContext(t, p.context)
    ensures |Loadable(t, p)| >= 2 ==> exists items: seq<Item> ::
              && |items| == |Loadable(t, p)| && IsClustering(s.params, items, p.groups)
              && forall k :: 0 <= k < |items| ==> Loadable(t, p)[k] in t && items[k] == t[Loadable(t, p)[k]].item
  {
    BatchIs(t, s.cap, p.batch);
    if p.batch != [] {
      ContextIs(t, p.context);
      var all := p.batch + p.context;
      assert forall k :: 0 <= k < |all| ==> all[k] in t;
      ItemsOfPass(t, p);
    }
  }

  lemma ItemsOfPass(t: Episodes, p: Pass)
    requires forall k :: 0 <= k < |p.batch + p.context| ==> (p.batch + p.context)[k] in t
    ensures var ids := Loaded(t, p.batch + p.context);
            |Items(t, ids)| == |ids| && forall k :: 0 <= k < |ids| ==> Items(t, ids)[k] == t[ids[k]].item
  {
  }

  datatype Event =
    | Distil(settings: Settings, answered: Answered, pass: Pass)
    | Promoted(id: nat, episode: Episode)
    | Refreshed(id: nat, episode: Episode)

  /** Promotion adds an unmarked episode or rewrites one, clearing its markers. */
  ghost predicate Step(t: Episodes, e: Event, t': Episodes) {
    match e
    case Distil(s, answered, p) => IsPass(t, s, answered, p, t')
    case Promoted(id, ep) => id !in t && !ep.marked && t' == t[id := ep]
    case Refreshed(id, ep) => id in t && !ep.marked && ep.version == t[id].version + 1 && ep.attempts == 0 && t' == t[id := ep]
  }

  ghost predicate StepAt(ts: seq<Episodes>, es: seq<Event>, k: nat) {
    k < |es| && k + 1 < |ts| && Step(ts[k], es[k], ts[k + 1])
  }

  ghost predicate Run(ts: seq<Episodes>, es: seq<Event>) {
    |ts| == |es| + 1 && forall k: nat :: k < |es| ==> StepAt(ts, es, k)
  }

  // ---------------------------------------------------------------------------
  // Loading
  // ---------------------------------------------------------------------------

  lemma {:induction false} LoadedIs(t: Episodes, ids: seq<nat>)
    requires forall k :: 0 <= k < |ids| ==> ids[k] in t
    ensures forall x: nat :: x in Loaded(t, ids) <==> x in ids && t[x].raws != {}
    ensures Distinct(ids) ==> Distinct(Loaded(t, ids))
  {
    if ids != [] {
      var init, last := ids[..|ids| - 1], ids[|ids| - 1];
      LoadedIs(t, init);
      assert ids == init + [last];
      if Distinct(ids) { assert last !in init; }
    }
  }

  lemma {:induction false} LoadedAtLeast(t: Episodes, ids: seq<nat>, n: nat)
    requires n <= |ids| && Distinct(ids)
    requires forall k :: 0 <= k < |ids| ==> ids[k] in t
    requires forall k :: 0 <= k < n ==> t[ids[k]].raws != {}
    ensures |Loaded(t, ids)| >= n
  {
    if ids != [] {
      LoadedAtLeast(t, ids[..|ids| - 1], Min(n, |ids| - 1));
    }
  }

  lemma BatchAndContext(t: Episodes, s: Settings, answered: Answered, p: Pass, t': Episodes)
    requires IsPass(t, s, answered, p, t') && p.batch != []
    ensures Distinct(p.batch + p.context)
    ensures forall k :: 0 <= k < |p.batch| ==> p.batch[k] in t && !t[p.batch[k]].marked
    ensures forall k :: 0 <= k < |p.context| ==> p.context[k] in t && t[p.context[k]].marked
  {
    SoonerTotal(t);
    NewerTotal(t);
    FirstIsDistinct(Undistilled(t), Sooner(t), s.cap, p.batch);
    FirstIsDistinct(Distilled(t), Newer(t), CONTEXT, p.context);
    assert forall k :: 0 <= k < |p.batch| ==> p.batch[k] in Undistilled(t);
    assert forall k :: 0 <= k < |p.context| ==> p.context[k] in Distilled(t);
  }

  function Loadable(t: Episodes, p: Pass): seq<nat> {
    var all := p.batch + p.context;
    if forall k :: 0 <= k < |all| ==> all[k] in t then Loaded(t, all) else []
  }

  /** What a pass makes of one episode: only a listed, undistilled one with lineage moves. */
  ghost predicate IsFate(t: Episodes, answered: Answered, p: Pass, x: nat, y: Episode)
    requires x in t
  {
    var ids := Loadable(t, p);
    if t[x].marked || x !in p.batch || t[x].raws == {} || |ids| < 2 then y == t[x]
    else if IsAlone(ids, p.groups, x) then y == t[x].(attempts := t[x].attempts + 1)
    else if IsConsumed(ids, p.groups, answered, x) then y == t[x].(marked := true)
    else y == t[x]
  }

  /** Everything later proofs need of a pass. */
  ghost predicate Outcome(t: Episodes, answered: Answered, p: Pass, t': Episodes) {
    && t'.Keys == t.Keys
    && (forall x :: x in t ==> IsFate(t, answered, p, x, t'[x]))
    && (|Loadable(t, p)| >= 2 ==> Partition(p.groups, |Loadable(t, p)|))
    && (forall k :: 0 <= k < |p.batch| ==> p.batch[k] in t && !t[p.batch[k]].marked)
    && Distinct(p.batch)
  }

  lemma PassOutcome(t: Episodes, s: Settings, answered: Answered, p: Pass, t': Episodes)
    requires IsPass(t, s, answered, p, t')
    ensures Outcome(t, answered, p, t')
  {
    if s.canDistill && p.batch != [] {
      BatchAndContext(t, s, answered, p, t');
      var all := p.batch + p.context;
      assert forall k :: 0 <= k < |all| ==> all[k] in t;
      var ids := Loaded(t, all);
      LoadedIs(t, all);
      if |ids| >= 2 {
        forall x | x in t
          ensures IsFate(t, answered, p, x, t'[x])
        {
          FateInPass(t, answered, p, t', ids, x);
        }
      }
      assert p.batch == all[..|p.batch|];
    }
  }

  lemma FateInPass(t: Episodes, answered: Answered, p: Pass, t': Episodes, ids: seq<nat>, x: nat)
    requires x in t && ids == Loadable(t, p) && |ids| >= 2 && t' == Consumed(t, ids, p.groups, answered)
    requires x in ids ==> x in p.batch + p.context && t[x].raws != {}
    requires forall k :: 0 <= k < |p.context| ==> p.context[k] in t && t[p.context[k]].marked
    ensures IsFate(t, answered, p, x, t'[x])
  {
    MemberIsListed(ids, p.groups, answered, x);
  }

  lemma MemberIsListed(ids: seq<nat>, groups: seq<seq<nat>>, answered: Answered, x: nat)
    ensures IsAlone(ids, groups, x) || IsConsumed(ids, groups, answered, x) ==> x in ids
  {
  }

  lemma ListedIsMember(ids: seq<nat>, groups: seq<seq<nat>>, answered: Answered, x: nat)
    requires Partition(groups, |ids|) && x in ids && forall g: seq<nat> :: answered(g)
    ensures IsAlone(ids, groups, x) || IsConsumed(ids, groups, answered, x)
  {
    var i: nat :| i < |ids| && ids[i] == x;
    var c, k := Locate(groups, |ids|, i);
    assert IsMember(ids, groups[c], x);
  }

  // ---------------------------------------------------------------------------
  // Bounded waiting
  // ---------------------------------------------------------------------------

  /** One token for every attempt an undistilled episode can still spend ahead of `e`:
      the count is the sum of attempts(e) + 1 - attempts(x) over the x with no more
      attempts than `e`. */
  function Tokens(t: Episodes, e: nat): set<(nat, nat)>
    requires e in t
  {
    set x, v: nat | x in t && !t[x].marked && v <= t[e].attempts && t[x].attempts <= v :: (x, v)
  }

  function Spent(t: Episodes, q: seq<nat>): set<(nat, nat)>
    requires forall k :: 0 <= k < |q| ==> q[k] in t
  {
    set k | 0 <= k < |q| :: (q[k], t[q[k]].attempts)
  }

  lemma {:induction false} SpentSize(t: Episodes, q: seq<nat>)
    requires (forall k :: 0 <= k < |q| ==> q[k] in t) && Distinct(q)
    ensures |Spent(t, q)| == |q|
  {
    if q != [] {
      var init, last := q[..|q| - 1], q[|q| - 1];
      SpentSize(t, init);
      SpentStep(t, q);
    }
  }

  lemma SpentStep(t: Episodes, q: seq<nat>)
    requires (forall k :: 0 <= k < |q| ==> q[k] in t) && Distinct(q) && q != []
    ensures var token := (q[|q| - 1], t[q[|q| - 1]].attempts);
            token !in Spent(t, q[..|q| - 1]) && Spent(t, q) == Spent(t, q[..|q| - 1]) + {token}
  {
    var init, last := q[..|q| - 1], q[|q| - 1];
    forall y | y in Spent(t, q)
      ensures y in Spent(t, init) + {(last, t[last].attempts)}
    {
      var k :| 0 <= k < |q| && y == (q[k], t[q[k]].attempts);
      if k < |init| { assert init[k] == q[k]; }
    }
  }

  ghost predicate AllHaveLineage(t: Episodes) {
    forall x :: x in t ==> t[x].raws != {}
  }

  /** A batch that leaves `e` out is full of episodes ahead of it. */
  lemma FullBatchAhead(t: Episodes, cap: nat, q: seq<nat>, e: nat)
    requires First(Undistilled(t), Sooner(t), cap, q) && e in Undistilled(t) && e !in q
    ensures |q| == cap
    ensures forall k :: 0 <= k < |q| ==> IsSooner(t, q[k], e)
  {
    SoonerTotal(t);
    FirstIsDistinct(Undistilled(t), Sooner(t), cap, q);
    DistinctSize(q);
    assert Undistilled(t) == (Elements(q) + {e}) + (Undistilled(t) - Elements(q) - {e});
    assert forall k :: 0 <= k < |q| ==> Sooner(t)(q[k], e);
  }

  /** A pass that moves every batch member spends a token of each. */
  lemma TokensSpent(t: Episodes, answered: Answered, p: Pass, t': Episodes, e: nat)
    requires Outcome(t, answered, p, t') && AllHaveLineage(t) && |Loadable(t, p)| >= 2
    requires forall g: seq<nat> :: answered(g)
    requires e in t && t'[e] == t[e]
    requires forall k :: 0 <= k < |p.batch| ==> t[p.batch[k]].attempts <= t[e].attempts
    requires forall k :: 0 <= k < |p.batch| ==> p.batch[k] in Loadable(t, p)
    ensures |Tokens(t', e)| <= |Tokens(t, e)| - |p.batch|
  {
    SpentSize(t, p.batch);
    assert Spent(t, p.batch) <= Tokens(t, e);
    forall x, v: nat | (x, v) in Tokens(t', e)
      ensures (x, v) in Tokens(t, e) && (x, v) !in Spent(t, p.batch)
    {
      TokenSurvives(t, answered, p, t', e, x, v);
    }
    SubsetSizes(Tokens(t', e), Tokens(t, e) - Spent(t, p.batch));
  }

  lemma TokenSurvives(t: Episodes, answered: Answered, p: Pass, t': Episodes, e: nat, x: nat, v: nat)
    requires Outcome(t, answered, p, t') && AllHaveLineage(t) && |Loadable(t, p)| >= 2
    requires forall g: seq<nat> :: answered(g)
    requires e in t && t'[e] == t[e] && (x, v) in Tokens(t', e)
    requires forall k :: 0 <= k < |p.batch| ==> p.batch[k] in Loadable(t, p)
    ensures (x, v) in Tokens(t, e) && (x, v) !in Spent(t, p.batch)
  {
    assert IsFate(t, answered, p, x, t'[x]);
    if x in p.batch {
      ListedIsMember(Loadable(t, p), p.groups, answered, x);
      assert t'[x].attempts == t[x].attempts + 1;
    }
  }

  lemma BatchIsLoaded(t: Episodes, s: Settings, answered: Answered, p: Pass, t': Episodes)
    requires IsPass(t, s, answered, p, t') && p.batch != [] && AllHaveLineage(t)
    ensures forall k :: 0 <= k < |p.batch| ==> p.batch[k] in Loadable(t, p)
    ensures |Loadable(t, p)| >= |p.batch|
  {
    BatchAndContext(t, s, answered, p, t');
    var all := p.batch + p.context;
    assert forall k :: 0 <= k < |all| ==> all[k] in t;
    LoadedIs(t, all);
    LoadedAtLeast(t, all, |p.batch|);
    assert forall k :: 0 <= k < |p.batch| ==> all[k] == p.batch[k];
  }

  /** A pass whose batch leaves `e` out spends a full batch of tokens. */
  lemma WaitingSpendsTokens(t: Episodes, s: Settings, answered: Answered, p: Pass, t': Episodes, e: nat)
    requires IsPass(t, s, answered, p, t') && s.canDistill && s.cap >= 2 && AllHaveLineage(t)
    requires forall g: seq<nat> :: answered(g)
    requires e in Undistilled(t) && e !in p.batch
    ensures AllHaveLineage(t') && e in Undistilled(t') && t'[e] == t[e]
    ensures |Tokens(t', e)| <= |Tokens(t, e)| - s.cap
  {
    FullBatchAhead(t, s.cap, p.batch, e);
    BatchIsLoaded(t, s, answered, p, t');
    PassOutcome(t, s, answered, p, t');
    assert IsFate(t, answered, p, e, t'[e]);
    TokensSpent(t, answered, p, t', e);
    OutcomeKeepsLineage(t, answered, p, t');
  }

  lemma OutcomeKeepsLineage(t: Episodes, answered: Answered, p: Pass, t': Episodes)
    requires Outcome(t, answered, p, t') && AllHaveLineage(t)
    ensures AllHaveLineage(t')
  {
    forall x | x in t'
      ensures t'[x].raws != {}
    {
      assert IsFate(t, answered, p, x, t'[x]);
    }
  }

  ghost predicate InBatch(e: Event, x: nat) {
    e.Distil? && x in e.pass.batch
  }

  /** The event is a pass with a provider that answers and a cap of `cap`. */
  ghost predicate Attentive(e: Event, cap: nat) {
    e.Distil? && e.settings.canDistill && e.settings.cap == cap && forall g: seq<nat> :: e.answered(g)
  }

  lemma WaitingStep(t: Episodes, ev: Event, t': Episodes, cap: nat, e: nat)
    requires Step(t, ev, t') && Attentive(ev, cap) && cap >= 2 && AllHaveLineage(t)
    requires e in Undistilled(t) && !InBatch(ev, e)
    ensures AllHaveLineage(t') && e in Undistilled(t') && t'[e] == t[e]
    ensures |Tokens(t', e)| + cap <= |Tokens(t, e)|
  {
    WaitingSpendsTokens(t, ev.settings, ev.answered, ev.pass, t', e);
  }

  lemma StepOf(ts: seq<Episodes>, es: seq<Event>, k: nat)
    requires Run(ts, es) && k < |es|
    ensures Step(ts[k], es[k], ts[k + 1])
  {
    assert StepAt(ts, es, k);
  }

  /** Still undistilled, with at most `room` tokens ahead. */
  ghost predicate Waits(t: Episodes, e: nat, room: int) {
    AllHaveLineage(t) && e in Undistilled(t) && |Tokens(t, e)| <= room
  }

  ghost predicate PassedOver(es: seq<Event>, cap: nat, e: nat, n: nat) {
    n <= |es| && (forall k :: 0 <= k < |es| ==> Attentive(es[k], cap)) && forall k :: 0 <= k < n ==> !InBatch(es[k], e)
  }

  lemma WaitingStepAt(ts: seq<Episodes>, es: seq<Event>, cap: nat, e: nat, k: nat, room: int)
    requires Run(ts, es) && cap >= 2 && k < |es| && Attentive(es[k], cap) && !InBatch(es[k], e)
    requires Waits(ts[k], e, room)
    ensures Waits(ts[k + 1], e, room - cap)
  {
    StepOf(ts, es, k);
    WaitingStep(ts[k], es[k], ts[k + 1], cap, e);
  }

  lemma {:induction false} StillWaiting(ts: seq<Episodes>, es: seq<Event>, cap: nat, e: nat, n: nat, room: int)
    requires Run(ts, es) && cap >= 2 && PassedOver(es, cap, e, n) && Waits(ts[0], e, room)
    ensures Waits(ts[n], e, room - Times(n, cap))
  {
    if n > 0 {
      StillWaiting(ts, es, cap, e, n - 1, room);
      WaitingStepAt(ts, es, cap, e, n - 1, room - Times(n - 1, cap));
    }
  }

  /** A full batch for each of `n` passes. */
  function Times(n: nat, cap: nat): nat {
    if n == 0 then 0 else Times(n - 1, cap) + cap
  }

  lemma {:induction false} TimesIs(n: nat, cap: nat)
    ensures Times(n, cap) == n * cap
  {
    if n > 0 { TimesIs(n - 1, cap); }
  }

  /** No episode starves: with lineage everywhere, a cap of at least two and a provider
      that answers, `e` is in a batch before `Tokens / cap` passes are over. */
  lemma WaitIsBounded(ts: seq<Episodes>, es: seq<Event>, cap: nat, e: nat)
    requires Run(ts, es) && cap >= 2 && AllHaveLineage(ts[0]) && e in Undistilled(ts[0])
    requires forall k :: 0 <= k < |es| ==> Attentive(es[k], cap)
    requires |es| * cap >= |Tokens(ts[0], e)|
    ensures exists k :: 0 <= k < |es| && InBatch(es[k], e)
  {
    if forall k :: 0 <= k < |es| ==> !InBatch(es[k], e) {
      StillWaiting(ts, es, cap, e, |es|, |Tokens(ts[0], e)|);
      TimesIs(|es|, cap);
      var t := ts[|es|];
      OwnToken(t, e);
      assert false;
    }
  }

  lemma OwnToken(t: Episodes, e: nat)
    requires e in Undistilled(t)
    ensures |Tokens(t, e)| > 0
  {
    assert (e, t[e].attempts) in Tokens(t, e);
  }

  // ---------------------------------------------------------------------------
  // An episode's version is consumed at most once
  // ---------------------------------------------------------------------------

  /** Group `c` of the pass is distilled, and `x` is one of the episodes that trigger it. */
  ghost predicate Consumes(t: Episodes, e: Event, c: nat, x: nat) {
    && e.Distil? && x in t && !t[x].marked && x in e.pass.batch && t[x].raws != {} && |Loadable(t, e.pass)| >= 2
    && c < |e.pass.groups| && |e.pass.groups[c]| >= 2 && IsMember(Loadable(t, e.pass), e.pass.groups[c], x)
    && e.answered(MembersOf(Loadable(t, e.pass), e.pass.groups[c]))
  }

  ghost predicate UsedUp(t: Episodes, x: nat, version: nat) {
    x in t && (t[x].version > version || (t[x].version == version && t[x].marked))
  }

  lemma LoadableIsDistinct(t: Episodes, e: Event, t': Episodes)
    requires Step(t, e, t') && e.Distil?
    ensures Distinct(Loadable(t, e.pass))
  {
    var all := e.pass.batch + e.pass.context;
    if e.settings.canDistill && e.pass.batch != [] {
      BatchAndContext(t, e.settings, e.answered, e.pass, t');
      LoadedIs(t, all);
    } else {
      assert all == [];
    }
  }

  lemma InOneGroup(ids: seq<nat>, groups: seq<seq<nat>>, c: nat, d: nat, x: nat)
    requires Partition(groups, |ids|) && Distinct(ids) && c < |groups| && d < |groups|
    requires IsMember(ids, groups[c], x) && IsMember(ids, groups[d], x)
    ensures c == d
  {
    var k :| 0 <= k < |groups[c]| && groups[c][k] < |ids| && ids[groups[c][k]] == x;
    var l :| 0 <= l < |groups[d]| && groups[d][l] < |ids| && ids[groups[d][l]] == x;
    assert groups[c][k] == groups[d][l];
    assert c < d ==> Disjoint(groups[c], groups[d]);
    assert d < c ==> Disjoint(groups[d], groups[c]);
  }

  lemma ConsumingUsesUp(t: Episodes, e: Event, t': Episodes, c: nat, x: nat)
    requires Step(t, e, t') && Consumes(t, e, c, x)
    ensures UsedUp(t', x, t[x].version)
  {
    var ids := Loadable(t, e.pass);
    PassOutcome(t, e.settings, e.answered, e.pass, t');
    LoadableIsDistinct(t, e, t');
    assert IsFate(t, e.answered, e.pass, x, t'[x]);
    if IsAlone(ids, e.pass.groups, x) {
      var d :| 0 <= d < |e.pass.groups| && |e.pass.groups[d]| < 2 && IsMember(ids, e.pass.groups[d], x);
      InOneGroup(ids, e.pass.groups, c, d, x);
    }
    assert IsConsumed(ids, e.pass.groups, e.answered, x);
  }

  lemma StepKeepsUsedUp(t: Episodes, e: Event, t': Episodes, x: nat, version: nat)
    requires Step(t, e, t') && UsedUp(t, x, version)
    ensures UsedUp(t', x, version)
  {
    if e.Distil? {
      PassOutcome(t, e.settings, e.answered, e.pass, t');
      assert IsFate(t, e.answered, e.pass, x, t'[x]);
    }
  }

  lemma {:induction false} StaysUsedUp(ts: seq<Episodes>, es: seq<Event>, j: nat, k: nat, x: nat, version: nat)
    requires Run(ts, es) && j <= k <= |es| && UsedUp(ts[j], x, version)
    ensures UsedUp(ts[k], x, version)
  {
    if j < k {
      StaysUsedUp(ts, es, j, k - 1, x, version);
      StepOf(ts, es, k - 1);
      StepKeepsUsedUp(ts[k - 1], es[k - 1], ts[k], x, version);
    }
  }

  ghost predicate ConsumesAt(ts: seq<Episodes>, es: seq<Event>, k: nat, c: nat, x: nat) {
    k < |es| && k < |ts| && Consumes(ts[k], es[k], c, x)
  }

  lemma ConsumedEarlier(ts: seq<Episodes>, es: seq<Event>, j: nat, c: nat, k: nat, x: nat)
    requires Run(ts, es) && j < k <= |es| && ConsumesAt(ts, es, j, c, x)
    ensures UsedUp(ts[k], x, ts[j][x].version)
  {
    StepOf(ts, es, j);
    ConsumingUsesUp(ts[j], es[j], ts[j + 1], c, x);
    StaysUsedUp(ts, es, j + 1, k, x, ts[j][x].version);
  }

  /** Over any run of passes, promotions and refreshes, one version of an episode triggers
      at most one distilled cluster. */
  lemma ConsumedAtMostOnce(ts: seq<Episodes>, es: seq<Event>, j: nat, c: nat, k: nat, d: nat, x: nat)
    requires Run(ts, es) && j <= k
    requires ConsumesAt(ts, es, j, c, x) && ConsumesAt(ts, es, k, d, x)
    requires ts[j][x].version == ts[k][x].version
    ensures j == k && c == d
  {
    if j < k {
      ConsumedEarlier(ts, es, j, c, k, x);
    } else {
      StepOf(ts, es, j);
      OneGroupPerPass(ts[j], es[j], ts[j + 1], c, d, x);
    }
  }

  lemma OneGroupPerPass(t: Episodes, e: Event, t': Episodes, c: nat, d: nat, x: nat)
    requires Step(t, e, t') && Consumes(t, e, c, x) && Consumes(t, e, d, x)
    ensures c == d
  {
    LoadableIsDistinct(t, e, t');
    PassOutcome(t, e.settings, e.answered, e.pass, t');
    InOneGroup(Loadable(t, e.pass), e.pass.groups, c, d, x);
  }
}
