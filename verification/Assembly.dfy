/** Answering a context request, step by step. */
module Assembly {
  import opened Prelude
  import opened Reach
  import opened Context
  import opened Batches
  import Text

  /** The outside world: the caller's resolved register, whether the query could be
      embedded, the present-tense heuristic, the scores and the configured budget. */
  datatype World = World(resolved: Option<string>, embeds: bool, isPresent: string -> bool, rank: Ranking, budget: nat)

  datatype Error = EmbeddingFailed

  function Lower(c: char): char {
    if 'A' <= c <= 'Z' then (c as int + 32) as char else c
  }

  predicate IsAll(name: string) {
    |name| == 3 && Lower(name[0]) == 'a' && Lower(name[1]) == 'l' && Lower(name[2]) == 'l'
  }

  function Names(req: Request): seq<string> {
    (if req.mode.Some? then [req.mode.value] else []) + req.modes
  }

  ghost predicate IsNamed(req: Request, name: string) {
    req.mode == Some(name) || name in req.modes
  }

  /** `all`, whatever the case of its letters. */
  ghost predicate SpellsAll(name: string) {
    name in {"all", "All", "aLl", "alL", "ALl", "AlL", "aLL", "ALL"}
  }

  /** `all` is named, or two different names are. */
  ghost predicate AsksAcross(req: Request) {
    (exists name :: IsNamed(req, name) && SpellsAll(name))
    || (exists name, other :: IsNamed(req, name) && IsNamed(req, other) && name != other)
  }

  lemma AllIs(name: string)
    ensures IsAll(name) <==> SpellsAll(name)
  {
    if IsAll(name) {
      assert name == [name[0], name[1], name[2]];
    }
  }

  lemma NamesAre(req: Request)
    ensures forall name :: name in Names(req) <==> IsNamed(req, name)
  {
  }

  lemma AcrossIs(req: Request)
    ensures AsksAcross(req) <==>
              (exists i :: 0 <= i < |Names(req)| && IsAll(Names(req)[i]))
              || (exists i, j :: 0 <= i < j < |Names(req)| && Names(req)[i] != Names(req)[j])
  {
    var names := Names(req);
    NamesAre(req);
    forall name
      ensures IsAll(name) <==> SpellsAll(name)
    {
      AllIs(name);
    }
    if name :| IsNamed(req, name) && SpellsAll(name) {
      assert name in names;
    }
    if name, other :| IsNamed(req, name) && IsNamed(req, other) && name != other {
      var i :| 0 <= i < |names| && names[i] == name;
      var j :| 0 <= j < |names| && names[j] == other;
      assert names[Min(i, j)] != names[Max(i, j)];
    }
    if i :| 0 <= i < |names| && IsAll(names[i]) {
      assert names[i] in names;
    }
    if i, j :| 0 <= i < j < |names| && names[i] != names[j] {
      assert names[i] in names && names[j] in names;
    }
  }

  /** Cross-register: `all` is named, or two different names are. */
  method IsCrossMode(req: Request) returns (b: bool)
    ensures b <==> AsksAcross(req)
  {
    AcrossIs(req);
    var names := Names(req);
    if exists i :: 0 <= i < |names| && IsAll(names[i]) {
      return true;
    }
    var distinct: set<string> := {};
    for i := 0 to |names|
      invariant distinct == set k | 0 <= k < i :: names[k]
      invariant |distinct| <= 1 ==> forall k, l :: 0 <= k < l < i ==> names[k] == names[l]
      invariant |distinct| > 1 ==> exists k, l :: 0 <= k < l < i && names[k] != names[l]
    {
      Grow(distinct, names, i);
      distinct := distinct + {names[i]};
    }
    b := |distinct| > 1;
  }

  lemma Grow(distinct: set<string>, names: seq<string>, i: nat)
    requires i < |names| && distinct == set k | 0 <= k < i :: names[k]
    ensures i == 0 ==> |distinct + {names[i]}| == 1
    ensures |distinct| <= 1 && i > 0 ==> (|distinct + {names[i]}| <= 1 <==> names[i] == names[0])
    ensures |distinct| > 1 ==> |distinct + {names[i]}| > 1
  {
    if i > 0 {
      assert names[0] in distinct;
      assert distinct == {names[0]} + (distinct - {names[0]});
      if names[i] in distinct {
        assert distinct + {names[i]} == distinct;
      }
    }
  }

  /** The newest `cap` rows the node's lineage reaches. */
  method RawIdsUnder(st: Store, n: nat, cap: nat) returns (ids: seq<nat>)
    ensures AreNewest(st, RawsUnder(st, n), cap, ids)
  {
    if cap == 0 {
      return [];
    }
    var under := Evidence(st.summarizes, st.derived, n);
    var rows := set r | r in under && r in st.raw;
    assert rows == RawsUnder(st, n);
    ids := Smallest(rows, Newest(st), cap);
    NewestIs(st, rows, cap, ids);
  }

  method NodeTouches(st: Store, n: nat, thread: string) returns (hit: bool)
    ensures hit <==> Touches(st, n, thread)
  {
    var under := Evidence(st.summarizes, st.derived, n);
    hit := exists r :: r in under && r in st.raw && st.raw[r].thread == Some(thread);
    assert forall r :: r in RawsUnder(st, n) <==> r in under && r in st.raw;
  }

  /** Facts and summaries in rank order, each with a few ids to drill into. */
  method Synthesize(st: Store, req: Request, curated: seq<nat>) returns (items: seq<Item>)
    requires forall k :: 0 <= k < |curated| ==> curated[k] in st.nodes
    ensures IsSynthesis(st, req.exclude, curated, items)
  {
    items := [];
    for k := 0 to |curated|
      invariant var all := Candidates(st, req.exclude, curated[..k]);
                |items| == |all| <= SYNTHESIS_MAX && forall j :: 0 <= j < |items| ==> IsItem(st, all[j], items[j])
    {
      var n := curated[k];
      assert curated[..k + 1][..k] == curated[..k];
      if st.nodes[n].kind.Episodic? {
        continue;
      }
      if |items| >= SYNTHESIS_MAX {
        CandidatesPrefix(st, req.exclude, curated, k);
        return;
      }
      if req.exclude.Some? {
        var hit := NodeTouches(st, n, req.exclude.value);
        if hit {
          continue;
        }
      }
      var drill := RawIdsUnder(st, n, SYNTHESIS_DRILL);
      items := items + [Item(n, st.nodes[n].kind, st.nodes[n].content, st.nodes[n].eventTime, drill)];
    }
    assert curated[..|curated|] == curated;
  }

  lemma {:induction false} CandidatesPrefix(st: Store, exclude: Option<string>, curated: seq<nat>, k: nat)
    requires k <= |curated|
    ensures Candidates(st, exclude, curated[..k]) <= Candidates(st, exclude, curated)
    decreases |curated| - k
  {
    if k < |curated| {
      CandidatesPrefix(st, exclude, curated, k + 1);
      assert curated[..k + 1][..k] == curated[..k];
    } else {
      assert curated[..k] == curated;
    }
  }

  lemma OneMorePart(st: Store, curated: seq<nat>, limit: nat, parts: seq<seq<nat>>, part: seq<nat>)
    requires AreParts(st, curated, limit, parts) && |parts| < |curated|
    requires IsPart(st, curated[|parts|], limit - |Merged(parts)|, part)
    ensures AreParts(st, curated, limit, parts + [part])
    ensures Merged(parts + [part]) == Merge(Merged(parts), part)
  {
    assert (parts + [part])[..|parts|] == parts;
  }

  /** Curated hits resolved to rows, each node up to the capacity that remains. */
  method Expand(st: Store, curated: seq<nat>, limit: nat) returns (ids: seq<nat>, ghost parts: seq<seq<nat>>)
    ensures IsExpansion(st, curated, limit, parts) && ids == Merged(parts)
    ensures Distinct(ids) && |ids| <= limit
  {
    ids, parts := GatherParts(st, curated, limit);
    MergedIs(parts);
    ExpansionFits(st, curated, limit, parts);
  }

  method GatherParts(st: Store, curated: seq<nat>, limit: nat) returns (ids: seq<nat>, ghost parts: seq<seq<nat>>)
    ensures IsExpansion(st, curated, limit, parts) && ids == Merged(parts)
  {
    ids, parts := [], [];
    var seen: set<nat> := {};
    for i := 0 to |curated|
      invariant |parts| == i && ids == Merged(parts) && AreParts(st, curated, limit, parts)
      invariant forall x :: x in seen <==> x in ids
    {
      if |ids| >= limit {
        return;
      }
      var part := RawIdsUnder(st, curated[i], limit - |ids|);
      OneMorePart(st, curated, limit, parts, part);
      ids, seen := PushNew(ids, seen, part, limit);
      parts := parts + [part];
    }
  }

  method PushNew(ids: seq<nat>, seen: set<nat>, part: seq<nat>, limit: nat) returns (out: seq<nat>, known: set<nat>)
    requires |ids| + |part| <= limit && forall x :: x in seen <==> x in ids
    ensures out == Merge(ids, part) && forall x :: x in known <==> x in out
  {
    out, known := ids, seen;
    for k := 0 to |part|
      invariant out == Merge(ids, part[..k]) && |out| <= |ids| + k
      invariant forall x :: x in known <==> x in out
    {
      assert part[..k + 1][..k] == part[..k];
      var isNew := part[k] !in known;
      known := known + {part[k]};
      if isNew && |out| < limit {
        out := out + [part[k]];
      }
    }
    assert part[..|part|] == part;
  }

  method FetchInOrder(st: Store, req: Request, ids: seq<nat>) returns (records: seq<nat>)
    ensures records == Fetched(st, req, ids)
  {
    records := [];
    for k := 0 to |ids|
      invariant records == Fetched(st, req, ids[..k])
    {
      assert ids[..k + 1][..k] == ids[..k];
      var r := ids[k];
      if r in st.raw && r !in st.superseded && st.raw[r].user == req.user
         && (req.exclude.None? || st.raw[r].thread != req.exclude) {
        records := records + [r];
      }
    }
    assert ids[..|ids|] == ids;
  }

  /** References the page does not hold yet go in front of it. */
  method Bias(refs: seq<nat>, base: seq<nat>, limit: nat) returns (records: seq<nat>)
    ensures records == Biased(true, refs, base, limit)
  {
    records := [];
    for k := 0 to |refs|
      invariant records == Without(refs[..k], base)
    {
      assert refs[..k + 1][..k] == refs[..k];
      if refs[k] !in base {
        records := records + [refs[k]];
      }
    }
    assert refs[..|refs|] == refs;
    records := records + base;
    if |records| > limit {
      records := records[..limit];
    }
  }

  /** The record limit and what the reserved characters leave of the budget. */
  method Clamp(st: Store, records: seq<nat>, limit: nat, total: nat, reserved: nat) returns (kept: seq<nat>, clip: Option<Clip>)
    requires limit > 0
    ensures IsClamped(st, records, limit, Max(0, total - reserved), kept)
    ensures var before := Min(limit, |records|);
            clip == if |kept| < before then Some(Clip(Max(0, total - reserved), |kept|, before)) else None
  {
    kept := if |records| > limit then records[..limit] else records;
    var budget, before, used := Max(0, total - reserved), |kept|, 0;
    for i := 0 to before
      invariant kept == records[..before] && used == Chars(st, kept[..i])
      invariant i > 1 ==> used <= budget
    {
      assert kept[..i + 1][..i] == kept[..i];
      used := used + if kept[i] in st.raw then |st.raw[kept[i]].content| else 0;
      if used > budget && i > 0 {
        assert records[..before][..i] == records[..i];
        kept := kept[..i];
        forall j | i < j <= before
          ensures Chars(st, records[..j]) > budget
        {
          CharsGrow(st, records, i + 1, j);
          assert records[..before][..i + 1] == records[..i + 1];
        }
        return kept, Some(Clip(budget, i, before));
      }
    }
    assert kept[..before] == kept;
    clip := None;
  }

  function ContentLengths(items: seq<Item>): nat {
    if items == [] then 0 else ContentLengths(items[..|items| - 1]) + |items[|items| - 1].content|
  }

  /** The number of records asked for: 50 unless said otherwise, and from 1 to 200. */
  ghost predicate IsLimit(asked: Option<int>, n: nat) {
    && (asked.None? ==> n == 50)
    && (asked.Some? && asked.value < 1 ==> n == 1)
    && (asked.Some? && 1 <= asked.value <= 200 ==> n == asked.value)
    && (asked.Some? && asked.value > 200 ==> n == 200)
  }

  function Clamped(limit: Option<int>): (n: nat)
    ensures IsLimit(limit, n)
  {
    var l := if limit.Some? then limit.value else 50;
    if l < 1 then 1 else if l > 200 then 200 else l
  }

  // ---------------------------------------------------------------------------
  // The queries' filters
  // ---------------------------------------------------------------------------

  method RecentRows(st: Store, req: Request, mode: Option<string>) returns (pool: set<nat>)
    ensures pool == Recent(st, req, mode)
  {
    pool := set r | r in st.raw && st.raw[r].user == req.user
                    && (req.topic.None? || st.raw[r].topic == req.topic)
                    && (req.thread.None? || st.raw[r].thread == req.thread)
                    && (mode.None? || st.raw[r].mode == mode)
                    && (req.exclude.None? || st.raw[r].thread != req.exclude)
                    && r !in st.superseded;
  }

  method CrossModeRows(st: Store, req: Request) returns (pool: set<nat>)
    ensures pool == CrossMode(st, req)
  {
    pool := set r | r in st.raw && st.raw[r].user == req.user
                    && (req.topic.None? || st.raw[r].topic == req.topic)
                    && (req.thread.None? || st.raw[r].thread == req.thread)
                    && (req.exclude.None? || st.raw[r].thread != req.exclude)
                    && r !in st.superseded;
  }

  method ReferenceRows(st: Store, req: Request, mode: Option<string>) returns (pool: set<nat>)
    ensures pool == References(st, req, mode)
  {
    pool := set r | r in st.raw && st.raw[r].isState && st.raw[r].user == req.user
                    && (req.topic.None? || st.raw[r].topic == req.topic)
                    && (req.thread.None? || st.raw[r].thread == req.thread)
                    && (req.exclude.None? || st.raw[r].thread != req.exclude)
                    && st.raw[r].mode == mode && r !in st.superseded;
  }

  method BackstopRows(st: Store, req: Request, mode: Option<string>, taken: set<nat>) returns (pool: set<nat>)
    ensures pool == Backstop(st, req, mode) - taken
  {
    pool := set r | r in st.raw && st.raw[r].user == req.user && r !in taken
                    && (req.topic.None? || st.raw[r].topic == req.topic)
                    && (req.thread.None? || st.raw[r].thread == req.thread)
                    && (req.exclude.None? || st.raw[r].thread != req.exclude)
                    && st.raw[r].mode == mode && r !in st.superseded;
  }

  method CuratedNodes(st: Store, req: Request, mode: Option<string>) returns (pool: set<nat>)
    ensures pool == Curated(st, req, mode)
  {
    pool := set n | n in st.nodes && st.nodes[n].user == req.user && st.nodes[n].mode == mode
                    && (req.topic.None? || exists e :: e in st.derived && e.0 == n && e.1 in st.raw && st.raw[e.1].topic == req.topic)
                    && (req.exclude.None? || st.nodes[n].thread != req.exclude)
                    && n !in st.retired;
  }

  /** The ranked reference rows, when the query asks about the present. */
  method Biasing(st: Store, req: Request, w: World, limit: nat, base: seq<nat>) returns (refs: seq<nat>, front: seq<nat>)
    ensures w.isPresent(req.query) ==> Batch(References(st, req, w.resolved), w.rank.reference, limit, refs)
    ensures front == Biased(w.isPresent(req.query), refs, base, limit)
  {
    refs, front := [], base;
    if w.isPresent(req.query) {
      var pool := ReferenceRows(st, req, w.resolved);
      refs := Smallest(pool, w.rank.reference, limit);
      front := Bias(refs, base, limit);
    }
  }

  /** Tops an under-filled page up from raw. */
  method TopUp(st: Store, req: Request, w: World, limit: nat, front: seq<nat>) returns (more: seq<nat>)
    ensures if |front| < limit
            then Batch(Backstop(st, req, w.resolved) - Elements(front), w.rank.backstop, limit - |front|, more)
            else more == []
  {
    more := [];
    if |front| < limit {
      var taken := set x | x in front;
      assert taken == Elements(front);
      var pool := BackstopRows(st, req, w.resolved, taken);
      more := Smallest(pool, w.rank.backstop, limit - |front|);
    }
  }

  /** The page a query in one register is answered with, before the clamp. */
  method RankedPage(st: Store, req: Request, w: World, limit: nat)
    returns (synthesis: seq<Item>, records: seq<nat>, ghost t: Trace)
    ensures IsPage(st, req, w.resolved, w.rank, limit, w.isPresent(req.query), t, records)
    ensures IsSynthesis(st, req.exclude, t.curated, synthesis)
    ensures Admissible(st, req, limit, records) && NoEcho(st, req.exclude, synthesis)
  {
    synthesis, records, t := GatherPage(st, req, w, limit);
    PageIsAdmissible(st, req, w.resolved, w.rank, limit, w.isPresent(req.query), t, records);
    EchoFree(st, req, t.curated, synthesis);
  }

  /** The three sources, one after the other. */
  method GatherPage(st: Store, req: Request, w: World, limit: nat)
    returns (synthesis: seq<Item>, records: seq<nat>, ghost t: Trace)
    ensures IsPage(st, req, w.resolved, w.rank, limit, w.isPresent(req.query), t, records)
    ensures IsSynthesis(st, req.exclude, t.curated, synthesis)
  {
    var pool := CuratedNodes(st, req, w.resolved);
    var curated := Smallest(pool, w.rank.curated, limit);
    assert forall k :: 0 <= k < |curated| ==> curated[k] in Curated(st, req, w.resolved);
    synthesis := Synthesize(st, req, curated);
    var ids;
    ghost var parts;
    ids, parts := Expand(st, curated, limit);
    var base := FetchInOrder(st, req, ids);
    var refs, front := Biasing(st, req, w, limit, base);
    var more := TopUp(st, req, w, limit, front);
    records := front + more;
    t := Trace(curated, parts, refs, more);
  }

  /** Synthesis that stays out of the caller's thread. */
  ghost predicate NoEcho(st: Store, exclude: Option<string>, items: seq<Item>) {
    && |items| <= 5
    && forall k: nat, r: nat :: k < |items| && r in st.raw && Rests(st.summarizes, st.derived, items[k].id, r) ==>
         Outside(exclude, st.raw[r].thread)
  }

  /** What every answer keeps to, whichever branch produced it: no record twice, no more than
      the limit, and all of them the caller's own, active and outside the excluded thread. */
  ghost predicate IsAnswer(st: Store, req: Request, limit: nat, budget: nat, resp: Response) {
    && Distinct(resp.records) && |resp.records| <= limit
    && (forall r :: r in resp.records ==>
          && r in st.raw && st.raw[r].user == req.user && r !in st.superseded
          && (req.exclude.Some? ==> st.raw[r].thread != req.exclude))
    && NoEcho(st, req.exclude, resp.synthesis)
    && (|resp.records| > 1 ==> Chars(st, resp.records) <= Max(0, budget - ContentLengths(resp.synthesis)))
  }

  method TotalContent(items: seq<Item>) returns (n: nat)
    ensures n == ContentLengths(items)
  {
    n := 0;
    for k := 0 to |items|
      invariant n == ContentLengths(items[..k])
    {
      assert items[..k + 1][..k] == items[..k];
      n := n + |items[k].content|;
    }
    assert items[..|items|] == items;
  }

  /** The records are the page up to the budget, and the warning says exactly what was cut. */
  ghost predicate IsServed(st: Store, budget: nat, page: seq<nat>, resp: Response) {
    var left := Max(0, budget - ContentLengths(resp.synthesis));
    && IsClamped(st, page, |page|, left, resp.records)
    && resp.clip == if |resp.records| < |page| then Some(Clip(left, |resp.records|, |page|)) else None
  }

  /** Clamps a page and what its synthesis leaves of the budget. */
  method Serve(st: Store, req: Request, limit: nat, budget: nat, synthesis: seq<Item>, records: seq<nat>, degraded: bool)
    returns (resp: Response)
    requires NoEcho(st, req.exclude, synthesis) && Admissible(st, req, limit, records) && limit > 0
    ensures IsAnswer(st, req, limit, budget, resp) && resp.synthesis == synthesis && resp.degraded == degraded
    ensures IsServed(st, budget, records, resp)
  {
    var reserved := TotalContent(synthesis);
    var kept, clip := Clamp(st, records, limit, budget, reserved);
    ClampedIsAdmissible(st, req, records, limit, Max(0, budget - reserved), kept);
    resp := Response(synthesis, kept, degraded, clip);
  }

  lemma EchoFree(st: Store, req: Request, curated: seq<nat>, items: seq<Item>)
    requires IsSynthesis(st, req.exclude, curated, items)
    ensures NoEcho(st, req.exclude, items)
  {
    forall k: nat, r: nat | k < |items| && r in st.raw && Rests(st.summarizes, st.derived, items[k].id, r)
      ensures Outside(req.exclude, st.raw[r].thread)
    {
      SynthesisStaysOutside(st, req, curated, items, k);
    }
  }

  /** A single sorted query over rows that are all servable. */
  method TopRows(st: Store, req: Request, pool: set<nat>, key: nat -> int, limit: nat) returns (q: seq<nat>)
    requires forall r :: r in pool ==> Servable(st, req, r)
    ensures Admissible(st, req, limit, q) && Batch(pool, key, limit, q)
  {
    q := Smallest(pool, key, limit);
  }

  /** Nothing eligible is missing from a page with room left. */
  ghost predicate IsFull(page: seq<nat>, limit: nat, pool: set<nat>) {
    |page| <= limit && (|page| < limit ==> forall r :: r in pool ==> r in page)
  }

  /** The page each branch fills up to the limit. */
  ghost predicate IsAnswerFrom(st: Store, req: Request, w: World, crossMode: bool, limit: nat, resp: Response,
                               page: seq<nat>, t: Trace) {
    && IsServed(st, w.budget, page, resp)
    && if Text.IsBlank(req.query) then
         var pool := Recent(st, req, if crossMode then None else w.resolved);
         && resp.synthesis == [] && !resp.degraded && AreNewest(st, pool, limit, page) && IsFull(page, limit, pool)
       else if crossMode then
         && resp.synthesis == [] && resp.degraded
         && Batch(CrossMode(st, req), w.rank.crossMode, limit, page) && IsFull(page, limit, CrossMode(st, req))
       else
         && !resp.degraded && IsSynthesis(st, req.exclude, t.curated, resp.synthesis)
         && IsPage(st, req, w.resolved, w.rank, limit, w.isPresent(req.query), t, page)
         && IsFull(page, limit, Backstop(st, req, w.resolved))
  }

  lemma BatchIsFull(pool: set<nat>, key: nat -> int, limit: nat, page: seq<nat>)
    requires Batch(pool, key, limit, page)
    ensures IsFull(page, limit, pool)
  {
    FullBatchIsAll(pool, key, limit, page);
  }

  method Assemble(st: Store, req: Request, w: World)
    returns (result: Result<Response, Error>, crossMode: bool, limit: nat, ghost page: seq<nat>, ghost t: Trace)
    ensures crossMode <==> AsksAcross(req)
    ensures IsLimit(req.limit, limit)
    ensures result.Err? <==> !Text.IsBlank(req.query) && !crossMode && !w.embeds
    ensures result.Ok? ==> IsAnswer(st, req, limit, w.budget, result.value)
    ensures result.Ok? ==> IsAnswerFrom(st, req, w, crossMode, limit, result.value, page, t)
  {
    limit := Clamped(req.limit);
    t := Trace([], [], [], []);
    page := [];
    crossMode := IsCrossMode(req);
    if Text.IsBlank(req.query) {
      var mode := if crossMode then None else w.resolved;
      var pool := RecentRows(st, req, mode);
      var recent := TopRows(st, req, pool, Newest(st), limit);
      NewestIs(st, pool, limit, recent);
      BatchIsFull(pool, Newest(st), limit, recent);
      var resp := Serve(st, req, limit, w.budget, [], recent, false);
      result, page := Ok(resp), recent;
    } else if crossMode {
      var pool := CrossModeRows(st, req);
      var ranked := TopRows(st, req, pool, w.rank.crossMode, limit);
      BatchIsFull(pool, w.rank.crossMode, limit, ranked);
      var resp := Serve(st, req, limit, w.budget, [], ranked, true);
      result, page := Ok(resp), ranked;
    } else if !w.embeds {
      result := Err(EmbeddingFailed);
    } else {
      var synthesis, records;
      synthesis, records, t := RankedPage(st, req, w, limit);
      PageIsFull(st, req, w.resolved, w.rank, limit, w.isPresent(req.query), t, records);
      var resp := Serve(st, req, limit, w.budget, synthesis, records, false);
      result, page := Ok(resp), records;
    }
  }
}
