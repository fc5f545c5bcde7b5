/** Which nodes of a summarised level get a parent: exactly those that cluster with another.
    A lone node ends its branch there - nothing carries it to the next level, which is
    loaded by its number. */
module LoneNodes {
  import opened Prelude
  import opened Clustering
  import opened SummaryTree

  lemma MemberIsChild(ids: seq<nat>, g: seq<nat>, k: nat)
    requires k < |ids| && k in g
    ensures ids[k] in Ids(ids, g)
  {
  }

  /** Distinct ids: a group's ids hold `ids[k]` only if the group holds `k`. */
  lemma ChildIsMember(ids: seq<nat>, g: seq<nat>, k: nat)
    requires Distinct(ids) && k < |ids| && ids[k] in Ids(ids, g)
    ensures k in g
  {
    var x :| x in g && x < |ids| && ids[x] == ids[k];
    assert x == k;
  }

  lemma SameGroup(groups: seq<seq<nat>>, n: nat, c: nat, d: nat, k: nat)
    requires Partition(groups, n) && c < |groups| && d < |groups| && k in groups[c] && k in groups[d]
    ensures c == d
  {
    assert c < d ==> Disjoint(groups[c], groups[d]);
    assert d < c ==> Disjoint(groups[d], groups[c]);
  }

  lemma GroupedHasParent(cfg: Config, nlp: Nlp, t: Tree, level: nat, groups: seq<seq<nat>>, c: nat, k: nat)
    requires SummarisedBy(cfg, nlp, t, level, groups) && c < |groups| && k in groups[c] && |groups[c]| >= 2
    requires k < |Loaded(t.nodes, level, cfg.batchCap)|
    ensures !Orphan(t.edges, Loaded(t.nodes, level, cfg.batchCap)[k])
  {
    var ids := Loaded(t.nodes, level, cfg.batchCap);
    assert HasSummary(t, level + 1, Ids(ids, groups[c]));
    var p: nat :| p < |t.nodes| && t.nodes[p].level == level + 1 && Children(t.edges, p) == Ids(ids, groups[c]);
    MemberIsChild(ids, groups[c], k);
    assert (p, ids[k]) in t.edges;
  }

  lemma ChildIsGrouped(nlp: Nlp, t: Tree, p: nat, ids: seq<nat>, groups: seq<seq<nat>>, c: nat, k: nat)
    requires Distinct(ids) && Partition(groups, |ids|) && c < |groups| && k in groups[c] && k < |ids|
    requires IsGroup(nlp, t, p, ids, groups) && (p, ids[k]) in t.edges
    ensures |groups[c]| >= 2
  {
    var d :| 0 <= d < |groups| && IsGroupAt(nlp, t, p, ids, groups, d);
    assert ids[k] in Children(t.edges, p);
    ChildIsMember(ids, groups[d], k);
    SameGroup(groups, |ids|, c, d, k);
  }

  lemma ParentHasGroup(cfg: Config, nlp: Nlp, t: Tree, base: nat, fanIn: nat, level: nat, groups: seq<seq<nat>>, c: nat, k: nat)
    requires WellFormed(t.nodes, t.edges, base, fanIn) && SummarisedBy(cfg, nlp, t, level, groups)
    requires c < |groups| && k in groups[c] && k < |Loaded(t.nodes, level, cfg.batchCap)|
    requires !Orphan(t.edges, Loaded(t.nodes, level, cfg.batchCap)[k])
    ensures |groups[c]| >= 2
  {
    var ids := Loaded(t.nodes, level, cfg.batchCap);
    var e :| e in t.edges && e.1 == ids[k];
    assert EdgeOk(t.nodes, base, e);
    assert IsGroup(nlp, t, e.0, ids, groups);
    ChildIsGrouped(nlp, t, e.0, ids, groups, c, k);
  }

  /** In a summarised level a loaded node has a parent if and only if its group has two
      members or more. */
  lemma ParentIff(cfg: Config, nlp: Nlp, t: Tree, base: nat, fanIn: nat, level: nat, groups: seq<seq<nat>>, c: nat, k: nat)
    requires WellFormed(t.nodes, t.edges, base, fanIn) && SummarisedBy(cfg, nlp, t, level, groups)
    requires c < |groups| && k in groups[c]
    ensures k < |Loaded(t.nodes, level, cfg.batchCap)|
    ensures !Orphan(t.edges, Loaded(t.nodes, level, cfg.batchCap)[k]) <==> |groups[c]| >= 2
  {
    var ids := Loaded(t.nodes, level, cfg.batchCap);
    assert |LevelItems(cfg, nlp, t.nodes, ids)| == |ids|;
    assert Bounded(groups[c], |ids|);
    if |groups[c]| >= 2 {
      GroupedHasParent(cfg, nlp, t, level, groups, c, k);
    }
    if !Orphan(t.edges, ids[k]) {
      ParentHasGroup(cfg, nlp, t, base, fanIn, level, groups, c, k);
    }
  }

  // ---------------------------------------------------------------------------
  // A level with one lone node
  // ---------------------------------------------------------------------------

  function Leaf(content: string): NodeRow {
    NodeRow(0, content, None, false)
  }

  /** Two nodes on one topic under a summary, and a third on another. */
  const THREE := Tree([Leaf("a"), Leaf("a"), Leaf("b"), NodeRow(1, "", None, false)], {(3, 0), (3, 1)})
  const PAIR_AND_ONE: seq<seq<nat>> := [[0, 1], [2]]

  function Topics(): Nlp {
    Nlp((content: string) => None, (content: string) => [content], (shown: seq<Child>) => "")
  }

  function Small(norm: Vec -> real): Config {
    Config(1, 8, Params(0.6, 0.4, 12, norm), 10)
  }

  function About(topic: string): Item {
    Item(None, [topic])
  }

  lemma ThreeLevels()
    ensures LevelIds(THREE.nodes, 0) == [0, 1, 2] && LevelIds(THREE.nodes, 1) == [3]
  {
    var nodes := THREE.nodes;
    assert nodes[..3][..2] == nodes[..2] && nodes[..2][..1] == nodes[..1] && nodes[..1][..0] == [];
    assert LevelIds(nodes[..1], 0) == [0] && LevelIds(nodes[..1], 1) == [];
    assert LevelIds(nodes[..2], 0) == [0, 1] && LevelIds(nodes[..2], 1) == [];
    assert LevelIds(nodes[..3], 0) == [0, 1, 2] && LevelIds(nodes[..3], 1) == [];
  }

  lemma ThreeIsWellFormed()
    ensures WellFormed(THREE.nodes, THREE.edges, 3, 12) && Children(THREE.edges, 3) == {0, 1}
  {
    assert (3, 0) in THREE.edges && (3, 1) in THREE.edges;
    assert Children(THREE.edges, 3) == {0, 1};
    assert |{0, 1}| == 2;
  }

  lemma PairAndOnePartition()
    ensures Partition(PAIR_AND_ONE, 3)
  {
    assert 0 in PAIR_AND_ONE[0] && 1 in PAIR_AND_ONE[0] && 2 in PAIR_AND_ONE[1];
    forall j: nat | j < 3
      ensures Covers(PAIR_AND_ONE, j)
    {
      assert j in PAIR_AND_ONE[0] || j in PAIR_AND_ONE[1];
    }
  }

  lemma BelowPairAndOne()
    ensures Below([0, 1], 0) == [] && Below([0, 1], 1) == [0] && Below([0, 1], 2) == [0, 1]
    ensures Below([2], 0) == [] && Below([2], 1) == [] && Below([2], 2) == []
  {
    assert [0, 1][..1] == [0] && [0][..0] == [] && [2][..0] == [];
  }

  lemma Overlaps()
    ensures Jaccard(["a"], ["a"]) == 1.0 && Jaccard(["b"], ["a"]) == 0.0
  {
    assert Elements(["a"]) == {"a"} && Elements(["b"]) == {"b"};
    assert "a"[0] != "b"[0];
    assert {"b"} * {"a"} == {} && |{"b"} + {"a"}| == 2;
  }

  lemma ThreeScores(score: Score, norm: Vec -> real)
    requires score == Scorer(Params(0.6, 0.4, 12, norm), [About("a"), About("a"), About("b")])
    ensures score(1, [0]) == Some(1.0) && score(2, [0, 1]) == None
  {
    Overlaps();
  }

  lemma ThreeAreExplained(score: Score)
    requires score(1, [0]) == Some(1.0) && score(2, [0, 1]) == None
    ensures Explained(score, 3, PAIR_AND_ONE)
  {
    var groups := PAIR_AND_ONE;
    PairAndOnePartition();
    BelowPairAndOne();
    forall c: nat
      ensures ScoreAt(score, groups, 0, c).None? && ScoreAt(score, groups, 2, c).None?
      ensures NotBeaten(score, groups, 1, 0, c)
    {
    }
    assert Justified(score, groups, 0, 0) && Justified(score, groups, 0, 1) && Justified(score, groups, 1, 0);
  }

  lemma ThreeCluster(norm: Vec -> real)
    ensures IsClustering(Params(0.6, 0.4, 12, norm), [About("a"), About("a"), About("b")], PAIR_AND_ONE)
  {
    var score := Scorer(Params(0.6, 0.4, 12, norm), [About("a"), About("a"), About("b")]);
    ThreeScores(score, norm);
    ThreeAreExplained(score);
  }

  lemma ThreeItems(norm: Vec -> real)
    ensures LevelItems(Small(norm), Topics(), THREE.nodes, [0, 1, 2]) == [About("a"), About("a"), About("b")]
  {
  }

  lemma PairIsSummarised()
    ensures Ids([0, 1, 2], PAIR_AND_ONE[0]) == {0, 1}
    ensures HasSummary(THREE, 1, Ids([0, 1, 2], PAIR_AND_ONE[0])) && IsGroup(Topics(), THREE, 3, [0, 1, 2], PAIR_AND_ONE)
  {
    ThreeIsWellFormed();
    assert 0 in PAIR_AND_ONE[0] && 1 in PAIR_AND_ONE[0];
    assert Ids([0, 1, 2], PAIR_AND_ONE[0]) == {0, 1};
    assert IdList([0, 1, 2], PAIR_AND_ONE[0]) == [0, 1];
    NoImportance();
    assert IsGroupAt(Topics(), THREE, 3, [0, 1, 2], PAIR_AND_ONE, 0);
  }

  lemma NoImportance()
    ensures MaxImportance(THREE.nodes, [0, 1]) == None
  {
    assert [0, 1][..1] == [0] && [0][..0] == [];
    assert MaxImportance(THREE.nodes, [0]) == None;
  }

  lemma ThreeIsSummarised(norm: Vec -> real)
    ensures SummarisedBy(Small(norm), Topics(), THREE, 0, PAIR_AND_ONE)
  {
    ThreeLevels();
    ThreeItems(norm);
    ThreeCluster(norm);
    PairIsSummarised();
    hide IsGroup, IsClustering, HasSummary;
    assert Loaded(THREE.nodes, 0, 10) == [0, 1, 2];
    forall p: nat | p < |THREE.nodes| && THREE.nodes[p].level == 1
      ensures IsGroup(Topics(), THREE, p, [0, 1, 2], PAIR_AND_ONE)
    {
      assert p == 3;
    }
  }

  /** The third node clusters with nobody: it has no parent, and the next level is the summary
      of the other two alone. */
  lemma LoneNodeEndsItsBranch(norm: Vec -> real)
    ensures WellFormed(THREE.nodes, THREE.edges, 3, 12) && SummarisedBy(Small(norm), Topics(), THREE, 0, PAIR_AND_ONE)
    ensures Orphan(THREE.edges, 2) && Loaded(THREE.nodes, 1, 10) == [3]
  {
    ThreeIsWellFormed();
    ThreeIsSummarised(norm);
    ThreeLevels();
  }
}
