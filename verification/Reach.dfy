/** What lies under a curated node: the `summarizes` tree and the raw rows it rests on. */
module Reach {

  type Edges = set<(nat, nat)>

  /** A walk along edges. */
  ghost predicate IsPath(edges: Edges, p: seq<nat>) {
    p != [] && forall k :: 0 <= k < |p| - 1 ==> (p[k], p[k + 1]) in edges
  }

  ghost predicate Leads(edges: Edges, n: nat, x: nat) {
    exists p :: IsPath(edges, p) && p[0] == n && p[|p| - 1] == x
  }

  ghost predicate ClosedUnder(edges: Edges, tree: set<nat>, frontier: set<nat>) {
    forall e :: e in edges && e.0 in tree && e.0 !in frontier ==> e.1 in tree
  }

  lemma LeadsOn(edges: Edges, n: nat, x: nat, y: nat)
    requires Leads(edges, n, x) && (x, y) in edges
    ensures Leads(edges, n, y)
  {
    var p :| IsPath(edges, p) && p[0] == n && p[|p| - 1] == x;
    var q := p + [y];
    assert IsPath(edges, q) && q[0] == n && q[|q| - 1] == y;
  }

  lemma LeadsToSelf(edges: Edges, n: nat)
    ensures Leads(edges, n, n)
  {
    assert IsPath(edges, [n]);
  }

  /** A set that holds the start and is closed under edges holds everything a walk reaches. */
  lemma {:induction false} PathStaysIn(edges: Edges, tree: set<nat>, p: seq<nat>)
    requires IsPath(edges, p) && p[0] in tree && ClosedUnder(edges, tree, {})
    ensures p[|p| - 1] in tree
    decreases |p|
  {
    if |p| > 1 {
      assert (p[0], p[1]) in edges && (p[0], p[1]).0 in tree;
      assert forall k :: 0 <= k < |p[1..]| - 1 ==> (p[1..][k], p[1..][k + 1]) == (p[k + 1], p[k + 2]);
      PathStaysIn(edges, tree, p[1..]);
    }
  }

  /** The recursive query: rows found in one round feed the next, duplicates dropped, until
      a round finds nothing new. It ends on cyclic graphs too. */
  method Tree(edges: Edges, n: nat) returns (tree: set<nat>)
    ensures forall x: nat :: x in tree <==> Leads(edges, n, x)
  {
    var all := (set e | e in edges :: e.1) + {n};
    var frontier := {n};
    tree := {n};
    LeadsToSelf(edges, n);
    while frontier != {}
      invariant n in tree && frontier <= tree <= all
      invariant forall x :: x in tree ==> Leads(edges, n, x)
      invariant ClosedUnder(edges, tree, frontier)
      decreases |all - tree|, |frontier|
    {
      var found := set e | e in edges && e.0 in frontier && e.1 !in tree :: e.1;
      forall x | x in found
        ensures Leads(edges, n, x)
      {
        var e :| e in edges && e.0 in frontier && e.1 == x;
        assert e == (e.0, x);
        LeadsOn(edges, n, e.0, x);
      }
      if found != {} {
        var x :| x in found;
        assert x in all - tree && x !in all - (tree + found);
        Shrinks(all - (tree + found), all - tree, x);
      }
      tree := tree + found;
      frontier := found;
    }
    forall x: nat | Leads(edges, n, x)
      ensures x in tree
    {
      var p :| IsPath(edges, p) && p[0] == n && p[|p| - 1] == x;
      PathStaysIn(edges, tree, p);
    }
  }

  lemma Shrinks(a: set<nat>, b: set<nat>, x: nat)
    requires a <= b && x in b && x !in a
    ensures |a| < |b|
  {
    assert b == a + (b - a);
    assert x in b - a;
  }

  /** The node's evidence: rows some node below it was derived from. */
  ghost predicate Rests(summarizes: Edges, derived: Edges, n: nat, r: nat) {
    exists x: nat :: Leads(summarizes, n, x) && (x, r) in derived
  }

  method Evidence(summarizes: Edges, derived: Edges, n: nat) returns (raws: set<nat>)
    ensures forall r: nat :: r in raws <==> Rests(summarizes, derived, n, r)
  {
    var tree := Tree(summarizes, n);
    raws := set e | e in derived && e.0 in tree :: e.1;
    forall r: nat
      ensures r in raws <==> Rests(summarizes, derived, n, r)
    {
      if r in raws {
        var e :| e in derived && e.0 in tree && e.1 == r;
        assert e == (e.0, r);
      }
      if Rests(summarizes, derived, n, r) {
        var x: nat :| Leads(summarizes, n, x) && (x, r) in derived;
        assert (x, r).1 == r && (x, r).0 in tree;
      }
    }
  }
}
