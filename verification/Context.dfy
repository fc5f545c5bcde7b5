/** What a context request may be answered with: one page of raw records merged from the
    curated layer, the references and a raw backstop, beside a few synthesis items. */
module Context {
  import opened Prelude
  import opened Reach
  import opened Batches

  datatype RawRow = RawRow(user: string, thread: Option<string>, topic: Option<string>, isState: bool,
                           mode: Option<string>, content: string, eventTime: int)

  datatype Kind = Episodic | Semantic | Summary

  datatype CuratedNode = CuratedNode(user: string, mode: Option<string>, kind: Kind, thread: Option<string>,
                                     content: string, eventTime: Option<int>)

  datatype Store = Store(raw: map<nat, RawRow>, superseded: set<nat>, nodes: map<nat, CuratedNode>,
                         retired: set<nat>, summarizes: Edges, derived: Edges)

  datatype Request = Request(user: string, query: string, topic: Option<string>, thread: Option<string>,
                             exclude: Option<string>, limit: Option<int>, mode: Option<string>, modes: seq<string>)

  datatype Item = Item(id: nat, kind: Kind, content: string, eventTime: Option<int>, drill: seq<nat>)

  datatype Clip = Clip(budget: nat, kept: nat, before: nat)

  datatype Response = Response(synthesis: seq<Item>, records: seq<nat>, degraded: bool, clip: Option<Clip>)

  /** The four scores the database sorts by; the smallest key ranks first. */
  datatype Ranking = Ranking(curated: nat -> int, reference: nat -> int, backstop: nat -> int, crossMode: nat -> int)

  const SYNTHESIS_MAX := 5
  const SYNTHESIS_DRILL := 5

  // ---------------------------------------------------------------------------
  // Filters
  // ---------------------------------------------------------------------------

  ghost predicate Matches(wanted: Option<string>, have: Option<string>) {
    wanted.None? || have == wanted
  }

  ghost predicate Outside(excluded: Option<string>, thread: Option<string>) {
    excluded.None? || thread != excluded
  }

  /** Owned, active, and not in the thread the caller is in. */
  ghost predicate Servable(st: Store, req: Request, r: nat) {
    && r in st.raw && st.raw[r].user == req.user && r !in st.superseded
    && Outside(req.exclude, st.raw[r].thread)
  }

  ghost predicate InScope(st: Store, req: Request, r: nat) {
    Servable(st, req, r) && Matches(req.topic, st.raw[r].topic) && Matches(req.thread, st.raw[r].thread)
  }

  ghost function Recent(st: Store, req: Request, mode: Option<string>): set<nat> {
    set r | r in st.raw && InScope(st, req, r) && Matches(mode, st.raw[r].mode)
  }

  ghost function CrossMode(st: Store, req: Request): set<nat> {
    set r | r in st.raw && InScope(st, req, r)
  }

  ghost function References(st: Store, req: Request, mode: Option<string>): set<nat> {
    set r | r in st.raw && InScope(st, req, r) && st.raw[r].isState && st.raw[r].mode == mode
  }

  ghost function Backstop(st: Store, req: Request, mode: Option<string>): set<nat> {
    set r | r in st.raw && InScope(st, req, r) && st.raw[r].mode == mode
  }

  ghost predicate HasTopic(st: Store, n: nat, topic: Option<string>) {
    topic.None? || exists e :: e in st.derived && e.0 == n && e.1 in st.raw && st.raw[e.1].topic == topic
  }

  ghost function Curated(st: Store, req: Request, mode: Option<string>): set<nat> {
    set n | n in st.nodes && st.nodes[n].user == req.user && st.nodes[n].mode == mode && n !in st.retired
            && HasTopic(st, n, req.topic) && Outside(req.exclude, st.nodes[n].thread)
  }

  function Newest(st: Store): nat -> int {
    (r: nat) => if r in st.raw then -st.raw[r].eventTime else 0
  }

  /** The newest `cap` rows of the pool, the newest of all first; ties may come in any order. */
  ghost predicate AreNewest(st: Store, pool: set<nat>, cap: nat, q: seq<nat>)
    requires forall r :: r in pool ==> r in st.raw
  {
    && |q| == Min(cap, |pool|) && Distinct(q) && (forall k :: 0 <= k < |q| ==> q[k] in pool)
    && (forall j, k :: 0 <= j < k < |q| ==> st.raw[q[j]].eventTime >= st.raw[q[k]].eventTime)
    && (forall k, r :: 0 <= k < |q| && r in pool && r !in q ==> st.raw[q[k]].eventTime >= st.raw[r].eventTime)
  }

  lemma NewestIs(st: Store, pool: set<nat>, cap: nat, q: seq<nat>)
    requires Batch(pool, Newest(st), cap, q) && forall r :: r in pool ==> r in st.raw
    ensures AreNewest(st, pool, cap, q)
  {
    forall j, k | 0 <= j < k < |q|
      ensures st.raw[q[j]].eventTime >= st.raw[q[k]].eventTime
    {
      assert q[j] in pool && q[k] in pool && Newest(st)(q[j]) <= Newest(st)(q[k]);
    }
    forall k, r | 0 <= k < |q| && r in pool && r !in q
      ensures st.raw[q[k]].eventTime >= st.raw[r].eventTime
    {
      assert q[k] in pool && Newest(st)(q[k]) <= Newest(st)(r);
    }
  }

  // ---------------------------------------------------------------------------
  // Synthesis
  // ---------------------------------------------------------------------------

  /** The rows a node's lineage reaches. */
  ghost function RawsUnder(st: Store, n: nat): set<nat> {
    set r | r in st.raw && Rests(st.summarizes, st.derived, n, r)
  }

  /** Some row in the node's lineage lives in the thread. */
  ghost predicate Touches(st: Store, n: nat, thread: string) {
    exists r :: r in RawsUnder(st, n) && st.raw[r].thread == Some(thread)
  }

  ghost predicate Synthesizes(st: Store, exclude: Option<string>, n: nat) {
    n in st.nodes && !st.nodes[n].kind.Episodic? && (exclude.Some? ==> !Touches(st, n, exclude.value))
  }

  ghost function Candidates(st: Store, exclude: Option<string>, curated: seq<nat>): seq<nat> {
    if curated == [] then []
    else Candidates(st, exclude, curated[..|curated| - 1]) +
         if Synthesizes(st, exclude, curated[|curated| - 1]) then [curated[|curated| - 1]] else []
  }

  ghost predicate IsItem(st: Store, n: nat, item: Item) {
    && n in st.nodes && item.id == n && item.kind == st.nodes[n].kind
    && item.content == st.nodes[n].content && item.eventTime == st.nodes[n].eventTime
    && AreNewest(st, RawsUnder(st, n), 5, item.drill)
  }

  /** The first few facts and summaries in rank order that do not lead into the thread. */
  ghost predicate IsSynthesis(st: Store, exclude: Option<string>, curated: seq<nat>, items: seq<Item>) {
    var all := Candidates(st, exclude, curated);
    |items| == Min(5, |all|) && forall k :: 0 <= k < |items| ==> IsItem(st, all[k], items[k])
  }

  lemma {:induction false} CandidatesAre(st: Store, exclude: Option<string>, curated: seq<nat>, n: nat)
    ensures n in Candidates(st, exclude, curated) <==> n in curated && Synthesizes(st, exclude, n)
  {
    if curated != [] {
      CandidatesAre(st, exclude, curated[..|curated| - 1], n);
      assert curated == curated[..|curated| - 1] + [curated[|curated| - 1]];
    }
  }

  /** No synthesis item reaches the excluded thread through summaries and their lineage,
      and neither do its drill ids. */
  lemma SynthesisStaysOutside(st: Store, req: Request, curated: seq<nat>, items: seq<Item>, k: nat)
    requires IsSynthesis(st, req.exclude, curated, items) && k < |items|
    ensures |items| <= 5
    ensures items[k].id in curated && items[k].id in st.nodes && !st.nodes[items[k].id].kind.Episodic?
    ensures forall r: nat :: r in st.raw && Rests(st.summarizes, st.derived, items[k].id, r) ==> Outside(req.exclude, st.raw[r].thread)
    ensures |items[k].drill| <= 5
    ensures forall r :: r in items[k].drill ==> r in st.raw && Rests(st.summarizes, st.derived, items[k].id, r)
  {
    var all := Candidates(st, req.exclude, curated);
    assert all[k] in all && IsItem(st, all[k], items[k]);
    CandidatesAre(st, req.exclude, curated, all[k]);
    forall r: nat | r in st.raw && Rests(st.summarizes, st.derived, items[k].id, r)
      ensures Outside(req.exclude, st.raw[r].thread)
    {
      assert r in RawsUnder(st, items[k].id);
    }
  }

  // ---------------------------------------------------------------------------
  // Merging
  // ---------------------------------------------------------------------------

  function Merged(parts: seq<seq<nat>>): seq<nat> {
    if parts == [] then [] else Merge(Merged(parts[..|parts| - 1]), parts[|parts| - 1])
  }

  lemma {:induction false} MergedIs(parts: seq<seq<nat>>)
    ensures Distinct(Merged(parts))
    ensures forall x :: x in Merged(parts) <==> exists i :: 0 <= i < |parts| && x in parts[i]
  {
    if parts != [] {
      var init, last := parts[..|parts| - 1], parts[|parts| - 1];
      MergedIs(init);
      MergeIs(Merged(init), last);
      forall x
        ensures x in Merged(parts) <==> exists i :: 0 <= i < |parts| && x in parts[i]
      {
        if x in Merged(init) {
          var i :| 0 <= i < |init| && x in init[i];
          assert x in parts[i];
        }
        if x in last { assert x in parts[|parts| - 1]; }
        if i :| 0 <= i < |parts| && x in parts[i] {
          assert i < |init| ==> x in init[i];
        }
      }
    }
  }

  /** The newest of a node's rows, as many as there is room for. */
  ghost predicate IsPart(st: Store, n: nat, room: int, part: seq<nat>) {
    room > 0 && AreNewest(st, RawsUnder(st, n), room, part)
  }

  ghost predicate AreParts(st: Store, curated: seq<nat>, limit: nat, parts: seq<seq<nat>>) {
    parts == [] ||
    (|parts| <= |curated|
     && AreParts(st, curated, limit, parts[..|parts| - 1])
     && IsPart(st, curated[|parts| - 1], limit - |Merged(parts[..|parts| - 1])|, parts[|parts| - 1]))
  }

  /** Node by node in rank order, each adding its newest rows up to the capacity left. */
  ghost predicate IsExpansion(st: Store, curated: seq<nat>, limit: nat, parts: seq<seq<nat>>) {
    AreParts(st, curated, limit, parts) && (|parts| < |curated| ==> |Merged(parts)| >= limit)
  }

  /** The limit binds during expansion, never after it. */
  lemma ExpansionFits(st: Store, curated: seq<nat>, limit: nat, parts: seq<seq<nat>>)
    requires IsExpansion(st, curated, limit, parts)
    ensures |Merged(parts)| <= limit
  {
  }

  ghost function Fetched(st: Store, req: Request, ids: seq<nat>): seq<nat> {
    if ids == [] then []
    else Fetched(st, req, ids[..|ids| - 1]) +
         if Servable(st, req, ids[|ids| - 1]) then [ids[|ids| - 1]] else []
  }

  ghost function Without(ids: seq<nat>, taken: seq<nat>): seq<nat> {
    if ids == [] then []
    else Without(ids[..|ids| - 1], taken) + if ids[|ids| - 1] in taken then [] else [ids[|ids| - 1]]
  }

  lemma {:induction false} FetchedIs(st: Store, req: Request, ids: seq<nat>)
    requires Distinct(ids)
    ensures Distinct(Fetched(st, req, ids)) && |Fetched(st, req, ids)| <= |ids|
    ensures forall x :: x in Fetched(st, req, ids) <==> x in ids && Servable(st, req, x)
  {
    if ids != [] {
      var init, last := ids[..|ids| - 1], ids[|ids| - 1];
      FetchedIs(st, req, init);
      assert ids == init + [last] && last !in init;
    }
  }

  lemma {:induction false} WithoutIs(ids: seq<nat>, taken: seq<nat>)
    requires Distinct(ids)
    ensures Distinct(Without(ids, taken)) && |Without(ids, taken)| <= |ids|
    ensures forall x :: x in Without(ids, taken) <==> x in ids && x !in taken
  {
    if ids != [] {
      var init, last := ids[..|ids| - 1], ids[|ids| - 1];
      WithoutIs(init, taken);
      assert ids == init + [last] && last !in init;
    }
  }

  // ---------------------------------------------------------------------------
  // Rank order
  // ---------------------------------------------------------------------------

  /** The best ranked node that contributes `x` is number `i`. */
  ghost predicate IsHome(parts: seq<seq<nat>>, x: nat, i: nat) {
    i < |parts| && x in parts[i] && forall h :: 0 <= h < i ==> x !in parts[h]
  }

  ghost predicate ByHome(parts: seq<seq<nat>>, ids: seq<nat>) {
    forall p, q, i, j :: (0 <= p < q < |ids| && IsHome(parts, ids[p], i) && IsHome(parts, ids[q], j)) ==> i <= j
  }

  lemma HomeInInit(parts: seq<seq<nat>>, x: nat, i: nat)
    requires parts != [] && IsHome(parts, x, i)
    ensures x in Merged(parts[..|parts| - 1]) ==> IsHome(parts[..|parts| - 1], x, i)
    ensures x !in Merged(parts[..|parts| - 1]) ==> i == |parts| - 1
  {
    var init := parts[..|parts| - 1];
    MergedIs(init);
    assert i < |init| ==> x in init[i];
    if x in Merged(init) {
      var h :| 0 <= h < |init| && x in init[h];
      assert x in parts[h];
    }
  }

  lemma {:induction false} MergeExtends(ids: seq<nat>, part: seq<nat>)
    ensures ids <= Merge(ids, part)
  {
    if part != [] { MergeExtends(ids, part[..|part| - 1]); }
  }

  /** Rows come out in the rank order of the nodes that contributed them. */
  lemma {:induction false} MergedByHome(parts: seq<seq<nat>>)
    ensures ByHome(parts, Merged(parts))
  {
    if parts != [] {
      var init, last := parts[..|parts| - 1], parts[|parts| - 1];
      MergedByHome(init);
      MergedIs(init);
      MergeExtends(Merged(init), last);
      MergeIs(Merged(init), last);
      var before, after := Merged(init), Merged(parts);
      forall p, q, i, j | 0 <= p < q < |after| && IsHome(parts, after[p], i) && IsHome(parts, after[q], j)
        ensures i <= j
      {
        HomeInInit(parts, after[p], i);
        HomeInInit(parts, after[q], j);
        if q < |before| {
          assert after[p] == before[p] && after[q] == before[q];
        } else {
          NewAtEnd(before, after, q);
        }
      }
    }
  }

  lemma NewAtEnd(before: seq<nat>, after: seq<nat>, q: nat)
    requires before <= after && Distinct(after) && |before| <= q < |after|
    ensures after[q] !in before
  {
    forall k | 0 <= k < |before|
      ensures before[k] != after[q]
    {
      assert after[k] == before[k];
    }
  }

  /** Filtering keeps the order: the records of the curated layer stay in rank order. */
  lemma {:induction false} FetchedByHome(st: Store, req: Request, parts: seq<seq<nat>>, ids: seq<nat>)
    requires ByHome(parts, ids)
    ensures ByHome(parts, Fetched(st, req, ids))
    ensures forall x :: x in Fetched(st, req, ids) ==> x in ids
  {
    if ids != [] {
      var init, last := ids[..|ids| - 1], ids[|ids| - 1];
      FetchedByHome(st, req, parts, init);
      var r := Fetched(st, req, init);
      if Servable(st, req, last) {
        forall p, i, j | 0 <= p < |r| && IsHome(parts, r[p], i) && IsHome(parts, last, j)
          ensures i <= j
        {
          assert r[p] in init;
          var k :| 0 <= k < |init| && init[k] == r[p];
          assert ids[k] == r[p];
        }
      }
    }
  }

  lemma CuratedRecordsKeepRank(st: Store, req: Request, parts: seq<seq<nat>>)
    ensures ByHome(parts, Fetched(st, req, Merged(parts)))
  {
    MergedByHome(parts);
    FetchedByHome(st, req, parts, Merged(parts));
  }

  // ---------------------------------------------------------------------------
  // The page
  // ---------------------------------------------------------------------------

  datatype Trace = Trace(curated: seq<nat>, parts: seq<seq<nat>>, refs: seq<nat>, backstop: seq<nat>)

  /** When the query asks about the present, the references not on the page yet stand in front
      of it, and the whole is cut to the limit. */
  ghost function Biased(present: bool, refs: seq<nat>, base: seq<nat>, limit: nat): seq<nat> {
    var all := Without(refs, base) + base;
    if !present then base else if |all| <= limit then all else all[..limit]
  }

  /** The ranked page before the budget clamp. */
  ghost predicate IsPage(st: Store, req: Request, mode: Option<string>, rank: Ranking, limit: nat, present: bool,
                         t: Trace, records: seq<nat>) {
    && Batch(Curated(st, req, mode), rank.curated, limit, t.curated)
    && IsExpansion(st, t.curated, limit, t.parts)
    && (present ==> Batch(References(st, req, mode), rank.reference, limit, t.refs))
    && var front := Biased(present, t.refs, Fetched(st, req, Merged(t.parts)), limit);
    && (if |front| < limit
        then Batch(Backstop(st, req, mode) - Elements(front), rank.backstop, limit - |front|, t.backstop)
        else t.backstop == [])
    && records == front + t.backstop
  }

  ghost predicate Admissible(st: Store, req: Request, limit: nat, records: seq<nat>) {
    Distinct(records) && |records| <= limit && forall r :: r in records ==> Servable(st, req, r)
  }

  lemma BaseIsAdmissible(st: Store, req: Request, curated: seq<nat>, limit: nat, parts: seq<seq<nat>>)
    requires IsExpansion(st, curated, limit, parts)
    ensures Admissible(st, req, limit, Fetched(st, req, Merged(parts)))
  {
    MergedIs(parts);
    ExpansionFits(st, curated, limit, parts);
    FetchedIs(st, req, Merged(parts));
  }

  lemma BiasedIsAdmissible(st: Store, req: Request, refs: seq<nat>, base: seq<nat>, limit: nat)
    requires Admissible(st, req, limit, base) && Distinct(refs) && forall r :: r in refs ==> Servable(st, req, r)
    ensures Admissible(st, req, limit, Biased(true, refs, base, limit))
  {
    WithoutIs(refs, base);
    var all := Without(refs, base) + base;
    assert forall j, k :: 0 <= j < |Without(refs, base)| <= k < |all| ==> all[j] in Without(refs, base) && all[k] in base;
    assert Distinct(all);
    assert forall r :: r in Biased(true, refs, base, limit) ==> r in all;
  }

  lemma FrontIsAdmissible(st: Store, req: Request, mode: Option<string>, rank: Ranking, limit: nat, present: bool, t: Trace, records: seq<nat>)
    requires IsPage(st, req, mode, rank, limit, present, t, records)
    ensures Admissible(st, req, limit, Biased(present, t.refs, Fetched(st, req, Merged(t.parts)), limit))
  {
    BaseIsAdmissible(st, req, t.curated, limit, t.parts);
    if present {
      assert forall k :: 0 <= k < |t.refs| ==> t.refs[k] in References(st, req, mode);
      BiasedIsAdmissible(st, req, t.refs, Fetched(st, req, Merged(t.parts)), limit);
    }
  }

  /** Whatever the three sources hold and however they rank: the page has no repeats, fits
      the limit, and is owned, active and outside the excluded thread throughout. */
  lemma PageIsAdmissible(st: Store, req: Request, mode: Option<string>, rank: Ranking, limit: nat, present: bool, t: Trace, records: seq<nat>)
    requires IsPage(st, req, mode, rank, limit, present, t, records)
    ensures Admissible(st, req, limit, records)
  {
    FrontIsAdmissible(st, req, mode, rank, limit, present, t, records);
    var front := Biased(present, t.refs, Fetched(st, req, Merged(t.parts)), limit);
    assert forall k :: 0 <= k < |t.backstop| ==> t.backstop[k] in Backstop(st, req, mode) - Elements(front);
    ToppedUpIsAdmissible(st, req, limit, front, t.backstop);
  }

  lemma ToppedUpIsAdmissible(st: Store, req: Request, limit: nat, front: seq<nat>, more: seq<nat>)
    requires Admissible(st, req, limit, front) && Distinct(more) && |front| + |more| <= limit
    requires forall k :: 0 <= k < |more| ==> Servable(st, req, more[k]) && more[k] !in front
    ensures Admissible(st, req, limit, front + more)
  {
  }

  lemma FullBatchIsAll(s: set<nat>, key: nat -> int, cap: nat, q: seq<nat>)
    requires Batch(s, key, cap, q)
    ensures |q| == cap || forall x :: x in s ==> x in q
  {
    if |q| < cap {
      EveryElement(s, q);
    }
  }

  lemma EveryElement(s: set<nat>, q: seq<nat>)
    requires |q| == |s| && Distinct(q) && forall k :: 0 <= k < |q| ==> q[k] in s
    ensures forall x :: x in s ==> x in q
  {
    DistinctSize(q);
    assert s == Elements(q) + (s - Elements(q));
  }

  /** The page is short only when it already holds everything in scope. */
  lemma PageIsFull(st: Store, req: Request, mode: Option<string>, rank: Ranking, limit: nat, present: bool, t: Trace, records: seq<nat>)
    requires IsPage(st, req, mode, rank, limit, present, t, records)
    ensures |records| == limit || forall r :: r in Backstop(st, req, mode) ==> r in records
  {
    FrontIsAdmissible(st, req, mode, rank, limit, present, t, records);
    var front := Biased(present, t.refs, Fetched(st, req, Merged(t.parts)), limit);
    if |front| < limit {
      FullBatchIsAll(Backstop(st, req, mode) - Elements(front), rank.backstop, limit - |front|, t.backstop);
    }
  }

  lemma FrontComesFrom(refs: seq<nat>, base: seq<nat>, present: bool, limit: nat, r: nat)
    requires Distinct(refs) && r in Biased(present, refs, base, limit)
    ensures r in base || (present && r in refs)
  {
    WithoutIs(refs, base);
    assert present ==> r in Without(refs, base) + base;
  }

  /** What does not come out of the curated layer matches the caller's topic, thread and
      register; what does was reached from a node of that register with evidence on the topic. */
  lemma PageComesFrom(st: Store, req: Request, mode: Option<string>, rank: Ranking, limit: nat, present: bool, t: Trace, records: seq<nat>, r: nat)
    requires IsPage(st, req, mode, rank, limit, present, t, records) && r in records
    ensures r in Backstop(st, req, mode)
            || exists n: nat :: n in Curated(st, req, mode) && Rests(st.summarizes, st.derived, n, r)
  {
    var base := Fetched(st, req, Merged(t.parts));
    var front := Biased(present, t.refs, base, limit);
    if r in t.backstop {
      assert forall k :: 0 <= k < |t.backstop| ==> t.backstop[k] in Backstop(st, req, mode) - Elements(front);
    } else if present && r in t.refs {
      assert forall k :: 0 <= k < |t.refs| ==> t.refs[k] in References(st, req, mode);
    } else {
      if present { FrontComesFrom(t.refs, base, present, limit, r); }
      MergedIs(t.parts);
      FetchedIs(st, req, Merged(t.parts));
      var i :| 0 <= i < |t.parts| && r in t.parts[i];
      PartReaches(st, t.curated, limit, t.parts, i, r);
      assert t.curated[i] in Curated(st, req, mode);
    }
  }

  lemma {:induction false} PartReaches(st: Store, curated: seq<nat>, limit: nat, parts: seq<seq<nat>>, i: nat, r: nat)
    requires AreParts(st, curated, limit, parts) && i < |parts| && r in parts[i]
    ensures i < |curated| && Rests(st.summarizes, st.derived, curated[i], r)
  {
    var n := |parts| - 1;
    if i < n {
      PartReaches(st, curated, limit, parts[..n], i, r);
    } else {
      assert IsPart(st, curated[n], limit - |Merged(parts[..n])|, parts[n]);
      assert r in RawsUnder(st, curated[n]);
    }
  }

  // ---------------------------------------------------------------------------
  // The budget
  // ---------------------------------------------------------------------------

  function Chars(st: Store, ids: seq<nat>): nat {
    if ids == [] then 0
    else Chars(st, ids[..|ids| - 1]) + if ids[|ids| - 1] in st.raw then |st.raw[ids[|ids| - 1]].content| else 0
  }

  /** The longest prefix within the limit and the budget, but never less than one record. */
  ghost predicate IsClamped(st: Store, records: seq<nat>, limit: nat, budget: nat, kept: seq<nat>) {
    && kept <= records && |kept| <= limit
    && (records != [] && limit > 0 ==> kept != [])
    && (|kept| > 1 ==> Chars(st, kept) <= budget)
    && (forall j :: |kept| < j <= |records| && j <= limit ==> Chars(st, records[..j]) > budget)
  }

  lemma ClampedIsAdmissible(st: Store, req: Request, records: seq<nat>, limit: nat, budget: nat, kept: seq<nat>)
    requires IsClamped(st, records, limit, budget, kept) && (Distinct(records) && forall r :: r in records ==> Servable(st, req, r))
    ensures Admissible(st, req, limit, kept)
  {
    assert kept == records[..|kept|];
    assert forall k :: 0 <= k < |kept| ==> kept[k] == records[k];
  }

  lemma {:induction false} CharsGrow(st: Store, ids: seq<nat>, j: nat, k: nat)
    requires j <= k <= |ids|
    ensures Chars(st, ids[..j]) <= Chars(st, ids[..k])
  {
    if j < k {
      CharsGrow(st, ids, j, k - 1);
      assert ids[..k][..k - 1] == ids[..k - 1];
    }
  }
}
