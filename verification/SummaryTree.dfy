/** The summary tree built over the level-0 curated nodes.

    Each round loads one level, clusters it, and writes a parent over every cluster of
    two or more. A cluster of one gets no parent: its node ends its branch there.
    The tree's shape is stated over the finished tables (`WellFormed`) and everything a
    reader relies on - one parent, fan-in, level bounds, disjoint evidence - follows. */
module SummaryTree {
  import opened Prelude
  import opened Clustering
  import Reach

  /** A curated node; its id is its position, which is also its creation order. */
  datatype NodeRow = NodeRow(level: nat, content: string, importance: Option<real>, superseded: bool)

  /** The foreign calls: stored embedding, entity extraction, text of a summary. */
  datatype Nlp = Nlp(embed: string -> Option<Vec>, entities: string -> seq<string>, summarize: seq<Child> -> string)

  /** What the summarizer is shown of a child. */
  datatype Child = Child(content: string, importance: Option<real>)

  datatype Config = Config(fanoutStop: nat, maxLevels: nat, clustering: Params, batchCap: nat)

  datatype Stats = Stats(summaries: nat, maxLevel: nat)

  type Edge = (nat, nat)

  // ---------------------------------------------------------------------------
  // The shape of a finished tree
  // ---------------------------------------------------------------------------

  ghost function Children(edges: set<Edge>, p: nat): set<nat> {
    set e | e in edges && e.0 == p :: e.1
  }

  ghost predicate EdgeOk(nodes: seq<NodeRow>, base: nat, e: Edge) {
    && e.1 < e.0 < |nodes| && base <= e.0
    && nodes[e.0].level == nodes[e.1].level + 1
  }

  ghost predicate OneParent(edges: set<Edge>) {
    forall e, f :: e in edges && f in edges && e.1 == f.1 ==> e.0 == f.0
  }

  /** Ids below `base` are the level-0 nodes; every later id is a summary. Edges drop
      exactly one level, no node has two parents, and every summary has at least two
      children and at most the cluster cap. */
  ghost predicate WellFormed(nodes: seq<NodeRow>, edges: set<Edge>, base: nat, fanIn: nat) {
    && base <= |nodes|
    && (forall i :: 0 <= i < base ==> nodes[i].level == 0)
    && (forall e :: e in edges ==> EdgeOk(nodes, base, e))
    && OneParent(edges)
    && (forall p :: base <= p < |nodes| ==> 2 <= |Children(edges, p)| <= fanIn)
  }

  /** Walks from two nodes of one level to a common descendant start at the same node:
      distinct summaries of a level never share evidence below them. */
  lemma {:induction false} SameLevelSummariesAreDisjoint(nodes: seq<NodeRow>, edges: set<Edge>, base: nat, fanIn: nat,
                                                         p: seq<nat>, q: seq<nat>)
    requires WellFormed(nodes, edges, base, fanIn)
    requires Reach.IsPath(edges, p) && Reach.IsPath(edges, q)
    requires p[0] < |nodes| && q[0] < |nodes| && nodes[p[0]].level == nodes[q[0]].level
    requires p[|p| - 1] == q[|q| - 1]
    ensures p == q
    decreases |p|
  {
    WalkDropsLevels(nodes, edges, base, fanIn, p);
    WalkDropsLevels(nodes, edges, base, fanIn, q);
    assert |p| == |q|;
    if |p| > 1 {
      var p', q' := p[..|p| - 1], q[..|q| - 1];
      assert (p'[|p'| - 1], p[|p| - 1]) in edges && (q'[|q'| - 1], q[|q| - 1]) in edges;
      SameLevelSummariesAreDisjoint(nodes, edges, base, fanIn, p', q');
      assert p == p' + [p[|p| - 1]] && q == q' + [q[|q| - 1]];
    }
  }

  lemma {:induction false} WalkDropsLevels(nodes: seq<NodeRow>, edges: set<Edge>, base: nat, fanIn: nat, p: seq<nat>)
    requires WellFormed(nodes, edges, base, fanIn) && Reach.IsPath(edges, p) && p[0] < |nodes|
    ensures p[|p| - 1] < |nodes|
    ensures nodes[p[0]].level == nodes[p[|p| - 1]].level + |p| - 1
  {
    if |p| > 1 {
      var p' := p[..|p| - 1];
      WalkDropsLevels(nodes, edges, base, fanIn, p');
      assert (p'[|p'| - 1], p[|p| - 1]) in edges;
    }
  }

  // ---------------------------------------------------------------------------
  // Levels and their sizes
  // ---------------------------------------------------------------------------

  /** The active nodes of a level in creation order. */
  function LevelIds(nodes: seq<NodeRow>, level: nat): (ids: seq<nat>)
    ensures forall k :: 0 <= k < |ids| ==> ids[k] < |nodes| && nodes[ids[k]].level == level && !nodes[ids[k]].superseded
    ensures forall k, l :: 0 <= k < l < |ids| ==> ids[k] < ids[l]
  {
    if nodes == [] then []
    else
      var n := |nodes| - 1;
      var rest := LevelIds(nodes[..n], level);
      if nodes[n].level == level && !nodes[n].superseded then rest + [n] else rest
  }

  function Loaded(nodes: seq<NodeRow>, level: nat, cap: nat): seq<nat> {
    LevelIds(nodes, level)[..Min(cap, |LevelIds(nodes, level)|)]
  }

  lemma {:induction false} LevelIdsComplete(nodes: seq<NodeRow>, level: nat, i: nat)
    requires i < |nodes| && nodes[i].level == level && !nodes[i].superseded
    ensures i in LevelIds(nodes, level)
  {
    var n := |nodes| - 1;
    if i < n {
      LevelIdsComplete(nodes[..n], level, i);
    }
  }

  lemma {:induction false} LevelIdsExtended(nodes: seq<NodeRow>, rows: seq<NodeRow>, level: nat)
    requires forall r :: r in rows ==> r.level != level
    ensures LevelIds(nodes + rows, level) == LevelIds(nodes, level)
  {
    if rows == [] {
      assert nodes + rows == nodes;
    } else {
      var init := rows[..|rows| - 1];
      assert (nodes + rows)[..|nodes + rows| - 1] == nodes + init;
      LevelIdsExtended(nodes, init, level);
    }
  }

  lemma {:induction false} NoneAtLevel(nodes: seq<NodeRow>, level: nat)
    requires forall r :: r in nodes ==> r.level != level
    ensures LevelIds(nodes, level) == []
  {
    LevelIdsExtended([], nodes, level);
    assert [] + nodes == nodes;
  }

  lemma {:induction false} NewLevelSize(nodes: seq<NodeRow>, rows: seq<NodeRow>, level: nat)
    requires forall r :: r in nodes ==> r.level != level
    requires forall r :: r in rows ==> r.level == level && !r.superseded
    ensures |LevelIds(nodes + rows, level)| == |rows|
  {
    if rows == [] {
      assert nodes + rows == nodes;
      NoneAtLevel(nodes, level);
    } else {
      var init := rows[..|rows| - 1];
      assert (nodes + rows)[..|nodes + rows| - 1] == nodes + init;
      NewLevelSize(nodes, init, level);
    }
  }

  function Pow2(n: nat): nat {
    if n == 0 then 1 else 2 * Pow2(n - 1)
  }

  lemma {:induction false} RangeSize(s: set<nat>, n: nat)
    requires forall x :: x in s ==> x < n
    ensures |s| <= n
  {
    if n == 0 {
      assert s == {};
    } else {
      RangeSize(s - {n - 1}, n - 1);
    }
  }

  /** How many groups have two members or more. */
  ghost function Multi(groups: seq<seq<nat>>): nat {
    if groups == [] then 0
    else Multi(groups[..|groups| - 1]) + if |groups[|groups| - 1]| >= 2 then 1 else 0
  }

  ghost function Union(groups: seq<seq<nat>>): set<nat> {
    if groups == [] then {} else Union(groups[..|groups| - 1]) + Elements(groups[|groups| - 1])
  }

  lemma {:induction false} UnionAvoids(groups: seq<seq<nat>>, g: seq<nat>)
    requires forall c :: 0 <= c < |groups| ==> Disjoint(groups[c], g)
    ensures Union(groups) !! Elements(g)
  {
    if groups != [] {
      UnionAvoids(groups[..|groups| - 1], g);
      assert Disjoint(groups[|groups| - 1], g);
    }
  }

  lemma {:induction false} UnionBounded(groups: seq<seq<nat>>, n: nat)
    requires forall c :: 0 <= c < |groups| ==> Bounded(groups[c], n)
    ensures forall x :: x in Union(groups) ==> x < n
  {
    if groups != [] {
      UnionBounded(groups[..|groups| - 1], n);
    }
  }

  /** Disjoint groups of two or more use up at least two members each. */
  lemma {:induction false} MultiUsesTwoEach(groups: seq<seq<nat>>)
    requires forall c :: 0 <= c < |groups| ==> Distinct(groups[c])
    requires forall c, d :: 0 <= c < d < |groups| ==> Disjoint(groups[c], groups[d])
    ensures 2 * Multi(groups) <= |Union(groups)|
  {
    if groups != [] {
      var init, last := groups[..|groups| - 1], groups[|groups| - 1];
      MultiUsesTwoEach(init);
      UnionAvoids(init, last);
      DistinctSize(last);
    }
  }

  /** A level has at most half as many summaries as it has nodes. */
  lemma HalvedAtMost(groups: seq<seq<nat>>, n: nat)
    requires Partition(groups, n)
    ensures 2 * Multi(groups) <= n
  {
    forall c | 0 <= c < |groups|
      ensures Distinct(groups[c])
    {
      assert Increasing(groups[c]);
    }
    MultiUsesTwoEach(groups);
    UnionBounded(groups, n);
    RangeSize(Union(groups), n);
  }

  // ---------------------------------------------------------------------------
  // Writing one summary
  // ---------------------------------------------------------------------------

  ghost function ParentEdges(p: nat, kids: set<nat>): set<Edge> {
    set c | c in kids :: (p, c)
  }

  ghost predicate Orphan(edges: set<Edge>, c: nat) {
    forall e :: e in edges ==> e.1 != c
  }

  lemma ChildrenOfNew(edges: set<Edge>, p: nat, kids: set<nat>)
    requires forall e :: e in edges ==> e.0 != p
    ensures Children(edges + ParentEdges(p, kids), p) == kids
  {
    forall x | x in kids
      ensures x in Children(edges + ParentEdges(p, kids), p)
    {
      assert (p, x) in edges + ParentEdges(p, kids);
    }
  }

  lemma ChildrenOfOld(edges: set<Edge>, p: nat, kids: set<nat>, q: nat)
    requires q != p
    ensures Children(edges + ParentEdges(p, kids), q) == Children(edges, q)
  {
  }

  /** Adding a parent over two or more parentless nodes of one level keeps the tree well formed. */
  lemma AddKeepsWellFormed(nodes: seq<NodeRow>, edges: set<Edge>, base: nat, fanIn: nat, row: NodeRow, kids: set<nat>)
    requires WellFormed(nodes, edges, base, fanIn)
    requires 2 <= |kids| <= fanIn
    requires forall k :: k in kids ==> k < |nodes| && nodes[k].level + 1 == row.level && Orphan(edges, k)
    ensures WellFormed(nodes + [row], edges + ParentEdges(|nodes|, kids), base, fanIn)
  {
    var p := |nodes|;
    var grown, all := nodes + [row], edges + ParentEdges(p, kids);
    forall e | e in all
      ensures EdgeOk(grown, base, e)
    {
      if e in edges { assert EdgeOk(nodes, base, e); }
    }
    forall e, f | e in all && f in all && e.1 == f.1
      ensures e.0 == f.0
    {
      if e.1 in kids { assert Orphan(edges, e.1); }
    }
    forall q | base <= q < |grown|
      ensures 2 <= |Children(all, q)| <= fanIn
    {
      if q < p {
        ChildrenOfOld(edges, p, kids, q);
      } else {
        forall e | e in edges
          ensures e.0 != p
        {
          assert EdgeOk(nodes, base, e);
        }
        ChildrenOfNew(edges, p, kids);
      }
    }
  }

  /** The node ids a group of positions stands for. */
  ghost function Ids(ids: seq<nat>, g: seq<nat>): set<nat> {
    set x | x in g && x < |ids| :: ids[x]
  }

  lemma IdsDisjoint(ids: seq<nat>, groups: seq<seq<nat>>, c: nat)
    requires Distinct(ids) && Partition(groups, |ids|) && c < |groups|
    ensures Ids(ids, groups[c]) !! IdsUpTo(ids, groups[..c])
  {
    IdsAvoid(ids, groups[..c], groups[c]);
  }

  lemma {:induction false} IdsAvoid(ids: seq<nat>, groups: seq<seq<nat>>, g: seq<nat>)
    requires Distinct(ids)
    requires forall c :: 0 <= c < |groups| ==> Disjoint(groups[c], g)
    ensures Ids(ids, g) !! IdsUpTo(ids, groups)
  {
    if groups != [] {
      IdsAvoid(ids, groups[..|groups| - 1], g);
      assert Disjoint(groups[|groups| - 1], g);
    }
  }

  ghost function IdsUpTo(ids: seq<nat>, groups: seq<seq<nat>>): set<nat> {
    if groups == [] then {} else IdsUpTo(ids, groups[..|groups| - 1]) + Ids(ids, groups[|groups| - 1])
  }

  lemma KidsAreIds(ids: seq<nat>, g: seq<nat>, kids: seq<nat>)
    requires Bounded(g, |ids|) && |kids| == |g| && forall k :: 0 <= k < |g| ==> kids[k] == ids[g[k]]
    ensures Elements(kids) == Ids(ids, g)
  {
    forall x | x in Ids(ids, g)
      ensures x in kids
    {
      var y :| y in g && y < |ids| && ids[y] == x;
      var k :| 0 <= k < |g| && g[k] == y;
      assert kids[k] == x;
    }
  }

  lemma IdsSize(ids: seq<nat>, g: seq<nat>)
    requires Distinct(ids) && Distinct(g) && Bounded(g, |ids|)
    ensures |Ids(ids, g)| == |g|
  {
    var kids := seq(|g|, k requires 0 <= k < |g| => ids[g[k]]);
    KidsAreIds(ids, g, kids);
    forall j, k | 0 <= j < k < |kids|
      ensures kids[j] != kids[k]
    {
      assert g[j] != g[k];
    }
    DistinctSize(kids);
  }

  // ---------------------------------------------------------------------------
  // A round of summaries over one level
  // ---------------------------------------------------------------------------

  datatype Tree = Tree(nodes: seq<NodeRow>, edges: set<Edge>)

  /** One level's groups `done` so far: a well-formed tree whose nodes from `first` on are
      this round's summaries, one per group of two or more and covering exactly it. */
  ghost predicate Round(nlp: Nlp, t0: Tree, t: Tree, base: nat, fanIn: nat, level: nat, ids: seq<nat>, done: seq<seq<nat>>) {
    && WellFormed(t.nodes, t.edges, base, fanIn)
    && Framed(t0, t, level, ids, done)
    && Covered(nlp, t0, t, ids, done)
  }

  /** Only this round's summaries and their edges are new. */
  ghost predicate Framed(t0: Tree, t: Tree, level: nat, ids: seq<nat>, done: seq<seq<nat>>) {
    && t0.nodes <= t.nodes && |t.nodes| == |t0.nodes| + Multi(done)
    && (forall i :: |t0.nodes| <= i < |t.nodes| ==> t.nodes[i].level == level + 1 && !t.nodes[i].superseded)
    && (forall e :: e in t.edges && e.1 < |t.nodes| && t.nodes[e.1].level == level ==> e.1 in IdsUpTo(ids, done))
    && (forall e :: e in t.edges && e.0 < |t0.nodes| ==> e in t0.edges)
    && t0.edges <= t.edges
  }

  /** The children as the summarizer is shown them, in order. */
  function Shown(nodes: seq<NodeRow>, kids: seq<nat>): seq<Child>
    requires forall k :: 0 <= k < |kids| ==> kids[k] < |nodes|
  {
    seq(|kids|, k requires 0 <= k < |kids| => Child(nodes[kids[k]].content, nodes[kids[k]].importance))
  }

  /** The row says what the summarizer makes of these children, and is as important as the
      most important of them. */
  ghost predicate IsSummaryOf(nlp: Nlp, nodes: seq<NodeRow>, kids: seq<nat>, row: NodeRow) {
    && (forall k :: 0 <= k < |kids| ==> kids[k] < |nodes|)
    && row.content == nlp.summarize(Shown(nodes, kids)) && row.importance == MaxImportance(nodes, kids)
  }

  lemma {:induction false} MaxImportanceStays(nodes: seq<NodeRow>, more: seq<NodeRow>, kids: seq<nat>)
    requires nodes <= more && forall k :: 0 <= k < |kids| ==> kids[k] < |nodes|
    ensures MaxImportance(more, kids) == MaxImportance(nodes, kids)
  {
    if kids != [] { MaxImportanceStays(nodes, more, kids[..|kids| - 1]); }
  }

  lemma SummaryStays(nlp: Nlp, nodes: seq<NodeRow>, more: seq<NodeRow>, kids: seq<nat>, row: NodeRow)
    requires nodes <= more && IsSummaryOf(nlp, nodes, kids, row)
    ensures IsSummaryOf(nlp, more, kids, row)
  {
    MaxImportanceStays(nodes, more, kids);
    assert Shown(more, kids) == Shown(nodes, kids);
  }

  /** The ids of a group, in its order. */
  ghost function IdList(ids: seq<nat>, g: seq<nat>): seq<nat> {
    seq(|g|, k requires 0 <= k < |g| => if g[k] < |ids| then ids[g[k]] else 0)
  }

  /** The children of `p` are exactly one of the groups, and `p` is its summary. */
  ghost predicate IsGroup(nlp: Nlp, t: Tree, p: nat, ids: seq<nat>, groups: seq<seq<nat>>) {
    p < |t.nodes| && exists c :: 0 <= c < |groups| && IsGroupAt(nlp, t, p, ids, groups, c)
  }

  ghost predicate IsGroupAt(nlp: Nlp, t: Tree, p: nat, ids: seq<nat>, groups: seq<seq<nat>>, c: nat)
    requires p < |t.nodes| && c < |groups|
  {
    && |groups[c]| >= 2 && Children(t.edges, p) == Ids(ids, groups[c])
    && IsSummaryOf(nlp, t.nodes, IdList(ids, groups[c]), t.nodes[p])
  }

  /** Some summary of this round has exactly these children. */
  ghost predicate HasParent(t0: Tree, t: Tree, kids: set<nat>) {
    exists p: nat :: |t0.nodes| <= p < |t.nodes| && Children(t.edges, p) == kids
  }

  lemma RoundStep(nlp: Nlp, t0: Tree, t: Tree, base: nat, fanIn: nat, level: nat, ids: seq<nat>, groups: seq<seq<nat>>, c: nat, row: NodeRow)
    requires Distinct(ids) && Partition(groups, |ids|) && c < |groups|
    requires forall k :: 0 <= k < |ids| ==> ids[k] < |t0.nodes| && t0.nodes[ids[k]].level == level
    requires Round(nlp, t0, t, base, fanIn, level, ids, groups[..c])
    requires 2 <= |groups[c]| <= fanIn && row.level == level + 1 && !row.superseded
    requires IsSummaryOf(nlp, t.nodes, IdList(ids, groups[c]), row)
    ensures Round(nlp, t0, Tree(t.nodes + [row], t.edges + ParentEdges(|t.nodes|, Ids(ids, groups[c]))),
                  base, fanIn, level, ids, groups[..c + 1])
  {
    var kids, p := Ids(ids, groups[c]), |t.nodes|;
    var t' := Tree(t.nodes + [row], t.edges + ParentEdges(p, kids));
    assert Increasing(groups[c]) && Distinct(groups[c]);
    IdsSize(ids, groups[c]);
    IdsDisjoint(ids, groups, c);
    assert forall k :: k in kids ==> k < |t0.nodes| && t.nodes[k] == t0.nodes[k];
    StepIsWellFormed(t, base, fanIn, level, row, kids, IdsUpTo(ids, groups[..c]));
    StepCovers(nlp, t0, t, t', ids, groups, c);
    StepFrames(t0, t, t', level, ids, groups, c);
  }

  lemma StepFrames(t0: Tree, t: Tree, t': Tree, level: nat, ids: seq<nat>, groups: seq<seq<nat>>, c: nat)
    requires c < |groups| && |groups[c]| >= 2 && Framed(t0, t, level, ids, groups[..c])
    requires t.nodes <= t'.nodes && |t'.nodes| == |t.nodes| + 1
    requires t'.nodes[|t.nodes|].level == level + 1 && !t'.nodes[|t.nodes|].superseded
    requires t'.edges == t.edges + ParentEdges(|t.nodes|, Ids(ids, groups[c]))
    requires forall e :: e in t.edges ==> e.1 < |t.nodes|
    ensures Framed(t0, t', level, ids, groups[..c + 1])
  {
    assert groups[..c + 1][..c] == groups[..c];
    forall e | e in t'.edges && e.1 < |t'.nodes| && t'.nodes[e.1].level == level
      ensures e.1 in IdsUpTo(ids, groups[..c + 1])
    {
      assert e in t.edges ==> t'.nodes[e.1] == t.nodes[e.1];
    }
  }

  lemma StepIsWellFormed(t: Tree, base: nat, fanIn: nat, level: nat, row: NodeRow, kids: set<nat>, taken: set<nat>)
    requires WellFormed(t.nodes, t.edges, base, fanIn) && 2 <= |kids| <= fanIn && row.level == level + 1
    requires forall k :: k in kids ==> k < |t.nodes| && t.nodes[k].level == level
    requires forall e :: e in t.edges && e.1 < |t.nodes| && t.nodes[e.1].level == level ==> e.1 in taken
    requires kids !! taken && base <= |t.nodes|
    ensures WellFormed(t.nodes + [row], t.edges + ParentEdges(|t.nodes|, kids), base, fanIn)
    ensures forall e :: e in t.edges ==> e.0 != |t.nodes| && e.1 < |t.nodes|
  {
    forall e | e in t.edges
      ensures e.0 != |t.nodes| && e.1 < |t.nodes| && e.1 !in kids
    {
      assert EdgeOk(t.nodes, base, e);
    }
    AddKeepsWellFormed(t.nodes, t.edges, base, fanIn, row, kids);
  }

  /** Which summaries the round wrote, over which groups. */
  ghost predicate Covered(nlp: Nlp, t0: Tree, t: Tree, ids: seq<nat>, done: seq<seq<nat>>) {
    && (forall c :: 0 <= c < |done| && |done[c]| >= 2 ==> HasParent(t0, t, Ids(ids, done[c])))
    && (forall p: nat :: |t0.nodes| <= p < |t.nodes| ==> IsGroup(nlp, t, p, ids, done))
  }

  lemma GroupStays(nlp: Nlp, t: Tree, t': Tree, p: nat, ids: seq<nat>, groups: seq<seq<nat>>, groups': seq<seq<nat>>)
    requires IsGroup(nlp, t, p, ids, groups) && groups <= groups' && t.nodes <= t'.nodes
    requires Children(t'.edges, p) == Children(t.edges, p)
    ensures IsGroup(nlp, t', p, ids, groups')
  {
    var c :| 0 <= c < |groups| && IsGroupAt(nlp, t, p, ids, groups, c);
    assert groups'[c] == groups[c] && t'.nodes[p] == t.nodes[p];
    SummaryStays(nlp, t.nodes, t'.nodes, IdList(ids, groups[c]), t.nodes[p]);
    assert IsGroupAt(nlp, t', p, ids, groups', c);
  }

  lemma StepCovers(nlp: Nlp, t0: Tree, t: Tree, t': Tree, ids: seq<nat>, groups: seq<seq<nat>>, c: nat)
    requires c < |groups| && |groups[c]| >= 2 && |t0.nodes| <= |t.nodes| && |t'.nodes| == |t.nodes| + 1
    requires Covered(nlp, t0, t, ids, groups[..c]) && t.nodes <= t'.nodes
    requires t'.edges == t.edges + ParentEdges(|t.nodes|, Ids(ids, groups[c]))
    requires forall e :: e in t.edges ==> e.0 != |t.nodes|
    requires IsSummaryOf(nlp, t.nodes, IdList(ids, groups[c]), t'.nodes[|t.nodes|])
    ensures Covered(nlp, t0, t', ids, groups[..c + 1])
  {
    var kids, p, done := Ids(ids, groups[c]), |t.nodes|, groups[..c + 1];
    ChildrenOfNew(t.edges, p, kids);
    forall d | 0 <= d < |done| && |done[d]| >= 2
      ensures HasParent(t0, t', Ids(ids, done[d]))
    {
      if d < c {
        assert groups[..c][d] == done[d];
        assert HasParent(t0, t, Ids(ids, groups[..c][d]));
        var q: nat :| |t0.nodes| <= q < |t.nodes| && Children(t.edges, q) == Ids(ids, done[d]);
        ChildrenOfOld(t.edges, p, kids, q);
      }
    }
    forall q: nat | |t0.nodes| <= q < |t'.nodes|
      ensures IsGroup(nlp, t', q, ids, done)
    {
      if q < p {
        ChildrenOfOld(t.edges, p, kids, q);
        assert groups[..c] <= done;
        GroupStays(nlp, t, t', q, ids, groups[..c], done);
      } else {
        SummaryStays(nlp, t.nodes, t'.nodes, IdList(ids, groups[c]), t'.nodes[p]);
        assert IsGroupAt(nlp, t', p, ids, done, c);
      }
    }
  }

  ghost predicate LevelFits(nodes: seq<NodeRow>, l: nat, n0: nat) {
    Pow2(l) * |LevelIds(nodes, l)| <= n0
  }

  /** The level sizes a reader may rely on: level `l` holds at most `n0 / 2^l` nodes. */
  ghost predicate Bounds(nodes: seq<NodeRow>, level: nat, n0: nat) {
    && (forall r :: r in nodes ==> r.level <= level)
    && (forall l: nat :: 1 <= l ==> LevelFits(nodes, l, n0))
  }

  lemma BoundsGrow(nodes: seq<NodeRow>, rows: seq<NodeRow>, level: nat, n0: nat)
    requires Bounds(nodes, level, n0) && Pow2(level + 1) * |rows| <= n0
    requires forall r :: r in rows ==> r.level == level + 1 && !r.superseded
    ensures Bounds(nodes + rows, level + 1, n0)
    ensures |LevelIds(nodes + rows, level + 1)| == |rows|
  {
    NewLevelSize(nodes, rows, level + 1);
    forall l: nat | 1 <= l
      ensures LevelFits(nodes + rows, l, n0)
    {
      if l <= level {
        assert LevelFits(nodes, l, n0);
        LevelIdsExtended(nodes, rows, l);
      } else if l > level + 1 {
        NoneAtLevel(nodes + rows, l);
      }
    }
  }

  /** After building up to `level`: the summaries so far and the nodes still to be
      grouped together never outnumber the level-0 nodes the build started from. */
  ghost predicate Progress(nodes: seq<NodeRow>, level: nat, cap: nat, n0: nat, total: nat) {
    && Bounds(nodes, level, n0)
    && Pow2(level) * |Loaded(nodes, level, cap)| <= n0
    && total + |Loaded(nodes, level, cap)| <= n0
    && (level == 0 ==> total == 0)
    && (level >= 1 ==> Loaded(nodes, level, cap) != [])
  }

  lemma RoundKeepsProgress(nlp: Nlp, t0: Tree, t: Tree, base: nat, fanIn: nat, level: nat, cap: nat,
                           groups: seq<seq<nat>>, n0: nat, total: nat)
    requires var ids := Loaded(t0.nodes, level, cap);
             Round(nlp, t0, t, base, fanIn, level, ids, groups) && Partition(groups, |ids|)
    requires Progress(t0.nodes, level, cap, n0, total)
    ensures Multi(groups) > 0 ==> Progress(t.nodes, level + 1, cap, n0, total + Multi(groups))
  {
    var ids := Loaded(t0.nodes, level, cap);
    var m := Multi(groups);
    HalvedAtMost(groups, |ids|);
    var rows := t.nodes[|t0.nodes|..];
    assert t.nodes == t0.nodes + rows;
    assert |rows| == m;
    HalfOf(Pow2(level), m, |ids|, n0);
    BoundsGrow(t0.nodes, rows, level, n0);
    MulMonotone(Pow2(level + 1), |Loaded(t.nodes, level + 1, cap)|, m);
  }

  lemma HalfOf(k: nat, a: nat, b: nat, n: nat)
    requires 2 * a <= b && k * b <= n
    ensures (2 * k) * a <= n
  {
    MulMonotone(k, 2 * a, b);
    assert (2 * k) * a == k * (2 * a);
  }

  lemma MulMonotone(k: nat, a: nat, b: nat)
    requires a <= b
    ensures k * a <= k * b
  {
  }

  lemma RoundSkip(nlp: Nlp, t0: Tree, t: Tree, base: nat, fanIn: nat, level: nat, ids: seq<nat>, groups: seq<seq<nat>>, c: nat)
    requires c < |groups| && |groups[c]| < 2
    requires Round(nlp, t0, t, base, fanIn, level, ids, groups[..c])
    ensures Round(nlp, t0, t, base, fanIn, level, ids, groups[..c + 1])
  {
    assert groups[..c + 1][..c] == groups[..c];
    var done := groups[..c + 1];
    forall d | 0 <= d < |done| && |done[d]| >= 2
      ensures HasParent(t0, t, Ids(ids, done[d]))
    {
      assert done[d] == groups[..c][d];
    }
    forall q: nat | |t0.nodes| <= q < |t.nodes|
      ensures IsGroup(nlp, t, q, ids, done)
    {
      assert groups[..c] <= done;
      GroupStays(nlp, t, t, q, ids, groups[..c], done);
    }
  }

  // ---------------------------------------------------------------------------
  // The builder
  // ---------------------------------------------------------------------------

  function MaxImportance(nodes: seq<NodeRow>, kids: seq<nat>): Option<real>
    requires forall k :: 0 <= k < |kids| ==> kids[k] < |nodes|
  {
    if kids == [] then None
    else
      match (MaxImportance(nodes, kids[..|kids| - 1]), nodes[kids[|kids| - 1]].importance)
      case (a, None) => a
      case (None, b) => b
      case (Some(a), Some(b)) => Some(if a >= b then a else b)
  }

  /** A summary is exactly as important as its most important child. */
  lemma {:induction false} MaxImportanceIs(nodes: seq<NodeRow>, kids: seq<nat>)
    requires forall k :: 0 <= k < |kids| ==> kids[k] < |nodes|
    ensures forall k :: 0 <= k < |kids| && nodes[kids[k]].importance.Some? ==>
              MaxImportance(nodes, kids).Some? && nodes[kids[k]].importance.value <= MaxImportance(nodes, kids).value
    ensures MaxImportance(nodes, kids).Some? ==>
              exists k :: 0 <= k < |kids| && nodes[kids[k]].importance == MaxImportance(nodes, kids)
  {
    if kids != [] {
      var init := kids[..|kids| - 1];
      MaxImportanceIs(nodes, init);
      if MaxImportance(nodes, kids).Some? {
        if MaxImportance(nodes, kids) == nodes[kids[|kids| - 1]].importance {
        } else {
          var k :| 0 <= k < |init| && nodes[init[k]].importance == MaxImportance(nodes, init);
          assert nodes[kids[k]].importance == MaxImportance(nodes, kids);
        }
      }
    }
  }

  function Stored(cfg: Config, nlp: Nlp, content: string): Item {
    var e := nlp.embed(content);
    Item(if e.Some? then Normalize(cfg.clustering.norm, e.value) else None, nlp.entities(content))
  }

  /** What the clusterer sees of a level. */
  ghost function LevelItems(cfg: Config, nlp: Nlp, nodes: seq<NodeRow>, ids: seq<nat>): seq<Item> {
    seq(|ids|, k requires 0 <= k < |ids| =>
      if ids[k] < |nodes| then Stored(cfg, nlp, nodes[ids[k]].content) else Item(None, []))
  }

  /** An embedding is brought to unit length on the way in; one without a length is dropped. */
  ghost predicate IsUnit(norm: Vec -> real, stored: Option<Vec>, unit: Option<Vec>) {
    if stored.Some? && norm(stored.value) > 0.0 then unit.Some? && IsScaled(unit.value, norm(stored.value), stored.value)
    else unit.None?
  }

  /** The clusterer sees each loaded node's own entities and its own embedding. */
  lemma LevelItemsAre(cfg: Config, nlp: Nlp, nodes: seq<NodeRow>, ids: seq<nat>, k: nat)
    requires k < |ids| && ids[k] < |nodes|
    ensures var item, content := LevelItems(cfg, nlp, nodes, ids)[k], nodes[ids[k]].content;
            item.entities == nlp.entities(content) && IsUnit(cfg.clustering.norm, nlp.embed(content), item.embedding)
  {
    var e := nlp.embed(nodes[ids[k]].content);
    if e.Some? { NormalizeIs(cfg.clustering.norm, e.value); }
  }

  /** The summaries above level `l` are exactly the groups of two or more that
      clustering that level gives: one each, with exactly the group as children. */
  ghost predicate SummarisedBy(cfg: Config, nlp: Nlp, t: Tree, l: nat, groups: seq<seq<nat>>) {
    var ids := Loaded(t.nodes, l, cfg.batchCap);
    && IsClustering(cfg.clustering, LevelItems(cfg, nlp, t.nodes, ids), groups)
    && (forall c :: 0 <= c < |groups| && |groups[c]| >= 2 ==> HasSummary(t, l + 1, Ids(ids, groups[c])))
    && (forall p: nat :: p < |t.nodes| && t.nodes[p].level == l + 1 ==> IsGroup(nlp, t, p, ids, groups))
  }

  ghost predicate HasSummary(t: Tree, l: nat, kids: set<nat>) {
    exists p: nat :: p < |t.nodes| && t.nodes[p].level == l && Children(t.edges, p) == kids
  }

  /** The level was too large to stop at, and its summaries are those of its clustering. */
  ghost predicate Summarised(cfg: Config, nlp: Nlp, t: Tree, l: nat) {
    |Loaded(t.nodes, l, cfg.batchCap)| > cfg.fanoutStop && exists groups :: SummarisedBy(cfg, nlp, t, l, groups)
  }

  /** The build has nothing left to do above `level`. */
  ghost predicate Finished(cfg: Config, nlp: Nlp, t: Tree, level: nat) {
    || level == cfg.maxLevels
    || |Loaded(t.nodes, level, cfg.batchCap)| <= cfg.fanoutStop
    || Summarised(cfg, nlp, t, level)
  }

  lemma RoundSummarises(cfg: Config, nlp: Nlp, t0: Tree, t: Tree, base: nat, fanIn: nat, level: nat, groups: seq<seq<nat>>)
    requires var ids := Loaded(t0.nodes, level, cfg.batchCap);
             Round(nlp, t0, t, base, fanIn, level, ids, groups)
             && IsClustering(cfg.clustering, LevelItems(cfg, nlp, t0.nodes, ids), groups)
    requires forall r :: r in t0.nodes ==> r.level <= level
    ensures SummarisedBy(cfg, nlp, t, level, groups)
  {
    var ids := Loaded(t0.nodes, level, cfg.batchCap);
    SameLoad(t0, t, level, level + 1, cfg.batchCap);
    assert LevelItems(cfg, nlp, t.nodes, ids) == LevelItems(cfg, nlp, t0.nodes, ids);
    forall c | 0 <= c < |groups| && |groups[c]| >= 2
      ensures HasSummary(t, level + 1, Ids(ids, groups[c]))
    {
      assert HasParent(t0, t, Ids(ids, groups[c]));
    }
    assert forall p :: 0 <= p < |t0.nodes| ==> t.nodes[p] == t0.nodes[p] && t0.nodes[p] in t0.nodes;
    forall p: nat | p < |t.nodes| && t.nodes[p].level == level + 1
      ensures IsGroup(nlp, t, p, ids, groups)
    {
    }
  }

  lemma SameLoad(t0: Tree, t: Tree, l: nat, added: nat, cap: nat)
    requires t0.nodes <= t.nodes && l != added
    requires forall i :: |t0.nodes| <= i < |t.nodes| ==> t.nodes[i].level == added
    ensures Loaded(t.nodes, l, cap) == Loaded(t0.nodes, l, cap)
  {
    var rows := t.nodes[|t0.nodes|..];
    assert t.nodes == t0.nodes + rows;
    LevelIdsExtended(t0.nodes, rows, l);
  }

  /** A later round leaves the summaries of an earlier level alone. */
  lemma RoundKeepsSummarised(cfg: Config, nlp: Nlp, t0: Tree, t: Tree, base: nat, fanIn: nat, level: nat,
                             ids: seq<nat>, groups: seq<seq<nat>>, l: nat)
    requires Round(nlp, t0, t, base, fanIn, level, ids, groups)
    requires l < level && Summarised(cfg, nlp, t0, l)
    ensures Summarised(cfg, nlp, t, l)
  {
    var ids0 := Loaded(t0.nodes, l, cfg.batchCap);
    var g :| SummarisedBy(cfg, nlp, t0, l, g);
    SameLoad(t0, t, l, level + 1, cfg.batchCap);
    assert LevelItems(cfg, nlp, t.nodes, ids0) == LevelItems(cfg, nlp, t0.nodes, ids0);
    forall p: nat | p < |t0.nodes|
      ensures Children(t.edges, p) == Children(t0.edges, p)
    {
    }
    forall c | 0 <= c < |g| && |g[c]| >= 2
      ensures HasSummary(t, l + 1, Ids(ids0, g[c]))
    {
      assert HasSummary(t0, l + 1, Ids(ids0, g[c]));
      var p: nat :| p < |t0.nodes| && t0.nodes[p].level == l + 1 && Children(t0.edges, p) == Ids(ids0, g[c]);
      assert t.nodes[p].level == l + 1;
    }
    forall p: nat | p < |t.nodes| && t.nodes[p].level == l + 1
      ensures IsGroup(nlp, t, p, ids0, g)
    {
      assert p < |t0.nodes| && IsGroup(nlp, t0, p, ids0, g);
      GroupStays(nlp, t0, t, p, ids0, g, g);
    }
    assert SummarisedBy(cfg, nlp, t, l, g);
  }

  /** The tree after rounds up to `level`, with `total` summaries written. */
  ghost predicate Built(cfg: Config, nlp: Nlp, t: Tree, base: nat, n0: nat, level: nat, total: nat) {
    && WellFormed(t.nodes, t.edges, base, Max(1, cfg.clustering.maxSize))
    && Progress(t.nodes, level, cfg.batchCap, n0, total)
    && AllSummarised(cfg, nlp, t, level)
  }

  /** One whole round: the level was loaded, found too large, clustered and written. */
  ghost predicate WholeRound(cfg: Config, nlp: Nlp, t0: Tree, t: Tree, base: nat, level: nat, groups: seq<seq<nat>>) {
    var ids := Loaded(t0.nodes, level, cfg.batchCap);
    && |ids| > cfg.fanoutStop
    && Round(nlp, t0, t, base, Max(1, cfg.clustering.maxSize), level, ids, groups)
    && IsClustering(cfg.clustering, LevelItems(cfg, nlp, t0.nodes, ids), groups)
  }

  lemma RoundKeepsLower(cfg: Config, nlp: Nlp, t0: Tree, t: Tree, base: nat, level: nat, groups: seq<seq<nat>>)
    requires WholeRound(cfg, nlp, t0, t, base, level, groups) && AllSummarised(cfg, nlp, t0, level)
    ensures AllSummarised(cfg, nlp, t, level)
  {
    forall l: nat | l < level
      ensures Summarised(cfg, nlp, t, l)
    {
      RoundKeepsSummarised(cfg, nlp, t0, t, base, Max(1, cfg.clustering.maxSize), level, Loaded(t0.nodes, level, cfg.batchCap), groups, l);
    }
  }

  lemma RoundAdvances(cfg: Config, nlp: Nlp, t0: Tree, t: Tree, base: nat, n0: nat, level: nat, total: nat, groups: seq<seq<nat>>)
    requires WholeRound(cfg, nlp, t0, t, base, level, groups)
    requires Progress(t0.nodes, level, cfg.batchCap, n0, total)
    ensures Progress(t.nodes, if Multi(groups) > 0 then level + 1 else level, cfg.batchCap, n0, total + Multi(groups))
  {
    RoundKeepsProgress(nlp, t0, t, base, Max(1, cfg.clustering.maxSize), level, cfg.batchCap, groups, n0, total);
    if Multi(groups) == 0 {
      assert t.nodes == t0.nodes;
    }
  }

  lemma RoundSummarisesLevel(cfg: Config, nlp: Nlp, t0: Tree, t: Tree, base: nat, n0: nat, level: nat, total: nat, groups: seq<seq<nat>>)
    requires WholeRound(cfg, nlp, t0, t, base, level, groups) && Progress(t0.nodes, level, cfg.batchCap, n0, total)
    ensures Summarised(cfg, nlp, t, level)
    ensures WellFormed(t.nodes, t.edges, base, Max(1, cfg.clustering.maxSize))
  {
    RoundSummarises(cfg, nlp, t0, t, base, Max(1, cfg.clustering.maxSize), level, groups);
    SameLoad(t0, t, level, level + 1, cfg.batchCap);
  }

  ghost predicate AllSummarised(cfg: Config, nlp: Nlp, t: Tree, level: nat) {
    forall l: nat :: l < level ==> Summarised(cfg, nlp, t, l)
  }

  lemma OneMoreSummarised(cfg: Config, nlp: Nlp, t: Tree, level: nat)
    requires AllSummarised(cfg, nlp, t, level) && Summarised(cfg, nlp, t, level)
    ensures AllSummarised(cfg, nlp, t, level + 1)
  {
    forall l: nat | l < level + 1
      ensures Summarised(cfg, nlp, t, l)
    {
      assert l < level ==> Summarised(cfg, nlp, t, l);
    }
  }

  lemma RoundKeepsBuilt(cfg: Config, nlp: Nlp, t0: Tree, t: Tree, base: nat, n0: nat, level: nat, total: nat, groups: seq<seq<nat>>)
    requires Progress(t0.nodes, level, cfg.batchCap, n0, total) && AllSummarised(cfg, nlp, t0, level)
    requires WholeRound(cfg, nlp, t0, t, base, level, groups)
    ensures Summarised(cfg, nlp, t, level)
    ensures Built(cfg, nlp, t, base, n0, if Multi(groups) > 0 then level + 1 else level, total + Multi(groups))
  {
    RoundAdvances(cfg, nlp, t0, t, base, n0, level, total, groups);
    RoundSummarisesLevel(cfg, nlp, t0, t, base, n0, level, total, groups);
    RoundKeepsLower(cfg, nlp, t0, t, base, level, groups);
    OneMoreSummarised(cfg, nlp, t, level);
  }

  lemma CleanStart(nodes: seq<NodeRow>, cap: nat)
    requires forall r :: r in nodes ==> r.level == 0
    ensures Progress(nodes, 0, cap, |Loaded(nodes, 0, cap)|, 0)
  {
    forall l: nat | 1 <= l
      ensures LevelFits(nodes, l, |Loaded(nodes, 0, cap)|)
    {
      NoneAtLevel(nodes, l);
    }
  }

  class CuratedTree {
    var nodes: seq<NodeRow>
    var edges: set<Edge>

    /** A clean level 0: earlier summaries and their edges have been wiped. */
    constructor (level0: seq<NodeRow>)
      ensures nodes == level0 && edges == {}
    {
      nodes, edges := level0, {};
    }

    method LoadLevel(level: nat, cap: nat) returns (ids: seq<nat>)
      ensures ids == Loaded(nodes, level, cap)
    {
      ids := [];
      var i := 0;
      while i < |nodes|
        invariant 0 <= i <= |nodes|
        invariant ids == LevelIds(nodes[..i], level)
      {
        assert nodes[..i + 1][..i] == nodes[..i];
        if nodes[i].level == level && !nodes[i].superseded {
          ids := ids + [i];
        }
        i := i + 1;
      }
      assert nodes[..|nodes|] == nodes;
      ids := ids[..Min(cap, |ids|)];
    }

    /** What the clusterer sees of the loaded nodes. */
    method LoadItems(cfg: Config, nlp: Nlp, ids: seq<nat>) returns (items: seq<Item>)
      requires forall k :: 0 <= k < |ids| ==> ids[k] < |nodes|
      ensures |items| == |ids|
      ensures forall k :: 0 <= k < |ids| ==> items[k] == Stored(cfg, nlp, nodes[ids[k]].content)
    {
      items := [];
      for k := 0 to |ids|
        invariant |items| == k
        invariant forall j :: 0 <= j < k ==> items[j] == Stored(cfg, nlp, nodes[ids[j]].content)
      {
        items := items + [Stored(cfg, nlp, nodes[ids[k]].content)];
      }
    }

    ghost function Now(): Tree
      reads this
    {
      Tree(nodes, edges)
    }

    method WriteSummary(nlp: Nlp, level: nat, kids: seq<nat>) returns (id: nat)
      requires forall k :: 0 <= k < |kids| ==> kids[k] < |nodes|
      modifies this
      ensures id == |old(nodes)|
      ensures edges == old(edges) + ParentEdges(id, Elements(kids))
      ensures |nodes| == id + 1 && nodes == old(nodes) + [nodes[id]]
      ensures nodes[id].level == level && !nodes[id].superseded
      ensures IsSummaryOf(nlp, old(nodes), kids, nodes[id])
    {
      var importance: Option<real> := None;
      var shown: seq<Child> := [];
      id := |nodes|;
      var linked := edges;
      for k := 0 to |kids|
        invariant importance == MaxImportance(nodes, kids[..k]) && shown == Shown(nodes, kids[..k])
        invariant linked == edges + ParentEdges(id, Elements(kids[..k]))
      {
        assert kids[..k + 1][..k] == kids[..k];
        assert Elements(kids[..k + 1]) == Elements(kids[..k]) + {kids[k]};
        assert ParentEdges(id, Elements(kids[..k + 1])) == ParentEdges(id, Elements(kids[..k])) + {(id, kids[k])};
        var row := nodes[kids[k]];
        if row.importance.Some? {
          importance := Some(if importance.Some? && importance.value >= row.importance.value
                             then importance.value else row.importance.value);
        }
        shown := shown + [Child(row.content, row.importance)];
        linked := linked + {(id, kids[k])};
      }
      assert kids[..|kids|] == kids;
      nodes := nodes + [NodeRow(level, nlp.summarize(shown), importance, false)];
      edges := linked;
    }

    /** Writes a parent over each group of two or more of the loaded level. */
    method BuildLevel(nlp: Nlp, ghost base: nat, ghost fanIn: nat, level: nat, ids: seq<nat>, groups: seq<seq<nat>>)
      returns (built: nat)
      requires WellFormed(nodes, edges, base, fanIn)
      requires forall i :: 0 <= i < |nodes| ==> nodes[i].level <= level
      requires forall k :: 0 <= k < |ids| ==> ids[k] < |nodes| && nodes[ids[k]].level == level
      requires Distinct(ids) && Partition(groups, |ids|)
      requires forall c :: 0 <= c < |groups| && |groups[c]| >= 2 ==> |groups[c]| <= fanIn
      modifies this
      ensures Round(nlp, old(Now()), Now(), base, fanIn, level, ids, groups)
      ensures built == Multi(groups)
    {
      built := 0;
      forall e | e in edges && e.1 < |nodes|
        ensures nodes[e.1].level != level
      {
        assert EdgeOk(nodes, base, e);
      }
      for c := 0 to |groups|
        invariant Round(nlp, old(Now()), Now(), base, fanIn, level, ids, groups[..c])
        invariant built == Multi(groups[..c])
      {
        assert groups[..c + 1][..c] == groups[..c];
        ghost var t := Now();
        if |groups[c]| >= 2 {
          var g := groups[c];
          assert Bounded(g, |ids|);
          var kids := seq(|g|, x requires 0 <= x < |g| => ids[g[x]]);
          KidsAreIds(ids, g, kids);
          assert kids == IdList(ids, g);
          var id := WriteSummary(nlp, level + 1, kids);
          RoundStep(nlp, old(Now()), t, base, fanIn, level, ids, groups, c, nodes[id]);
          built := built + 1;
        } else {
          RoundSkip(nlp, old(Now()), t, base, fanIn, level, ids, groups, c);
        }
      }
      assert groups[..|groups|] == groups;
    }

    /** One round: load a level, cluster it, write its summaries. Writes nothing when the
        level is already small enough or nothing groups. */
    method BuildRound(cfg: Config, nlp: Nlp, ghost base: nat, level: nat, ghost n0: nat, ghost total: nat) returns (built: nat)
      requires Built(cfg, nlp, Now(), base, n0, level, total)
      modifies this
      ensures old(nodes) <= nodes && |nodes| == |old(nodes)| + built
      ensures Built(cfg, nlp, Now(), base, n0, if built > 0 then level + 1 else level, total + built)
      ensures built == 0 ==> Finished(cfg, nlp, Now(), level)
    {
      ghost var before, fanIn := Now(), Max(1, cfg.clustering.maxSize);
      var ids := LoadLevel(level, cfg.batchCap);
      if |ids| <= cfg.fanoutStop {
        return 0;
      }
      var items := LoadItems(cfg, nlp, ids);
      var groups := ClusterForDistill(cfg.clustering, items);
      forall c | 0 <= c < |groups|
        ensures |groups[c]| <= fanIn
      {
        GroupsRespectTheCap(cfg.clustering, items, groups, c);
      }
      built := BuildLevel(nlp, base, fanIn, level, ids, groups);
      assert items == LevelItems(cfg, nlp, before.nodes, ids);
      RoundKeepsBuilt(cfg, nlp, before, Now(), base, n0, level, total, groups);
    }

    /** Builds the whole tree over a clean level 0. */
    method BuildSummariesWith(cfg: Config, nlp: Nlp) returns (stats: Stats)
      requires edges == {} && forall r :: r in nodes ==> r.level == 0
      modifies this
      ensures old(nodes) <= nodes
      ensures WellFormed(nodes, edges, |old(nodes)|, Max(1, cfg.clustering.maxSize))
      ensures stats.summaries == |nodes| - |old(nodes)|
      ensures stats.maxLevel <= cfg.maxLevels
      ensures Bounds(nodes, stats.maxLevel, |Loaded(old(nodes), 0, cfg.batchCap)|)
      ensures stats.summaries <= Max(0, |Loaded(old(nodes), 0, cfg.batchCap)| - 1)
      ensures forall l: nat :: l < stats.maxLevel ==> Summarised(cfg, nlp, Now(), l)
      ensures Finished(cfg, nlp, Now(), stats.maxLevel)
    {
      stats := Stats(0, 0);
      var level := 0;
      ghost var base := |nodes|;
      ghost var n0 := |Loaded(nodes, 0, cfg.batchCap)|;
      CleanStart(nodes, cfg.batchCap);
      while level < cfg.maxLevels
        invariant level == stats.maxLevel <= cfg.maxLevels
        invariant old(nodes) <= nodes && |nodes| == base + stats.summaries
        invariant Built(cfg, nlp, Now(), base, n0, level, stats.summaries)
        decreases cfg.maxLevels - level
      {
        var built := BuildRound(cfg, nlp, base, level, n0, stats.summaries);
        if built == 0 {
          break;
        }
        stats := Stats(stats.summaries + built, level + 1);
        level := level + 1;
      }
    }
  }
}
