/** The promotion pass over the tables, statement by statement. */
module Promotion {
  import opened Prelude
  import opened Batches
  import opened Episodes
  import opened Rebuildable

  class EpisodeStore {
    var raw: seq<Row>
    var gone: set<nat>
    var nodes: map<nat, Node>
    var next: nat

    function Now(): Tables
      reads this
    {
      Tables(raw, gone, nodes, next)
    }

    constructor ()
      ensures Now() == EMPTY_TABLES
    {
      raw, gone, nodes, next := [], {}, map[], 0;
    }

    /** A record arrives, possibly with a claim that it replaces an earlier one. */
    method Ingest(row: Row, claim: Option<nat>)
      requires claim.Some? ==> claim.value < |raw|
      modifies this
      ensures Step(old(Now()), Arrive(row, claim), Now())
    {
      raw := raw + [row];
      if claim.Some? {
        gone := gone + {claim.value};
      }
    }

    /** The active turns of a session, oldest first. */
    method LoadSessionTurns(m: Mode, t: nat) returns (order: seq<nat>)
      ensures order == Ordered(raw, Turns(Now(), m, t), |raw|)
      ensures Elements(order) == Turns(Now(), m, t)
      ensures |order| == |Turns(Now(), m, t)|
    {
      order := [];
      ghost var turns := Turns(Now(), m, t);
      for i := 0 to |raw|
        invariant order == Ordered(raw, turns, i)
      {
        if IsTurn(raw, m, t, i) && i !in gone {
          order := Inserted(raw, order, i);
        }
      }
      OrderedIs(raw, turns, |raw|);
      DistinctSize(order);
      assert Elements(order) == turns;
    }

    method RenderTranscript(order: seq<nat>) returns (content: string)
      requires forall k :: 0 <= k < |order| ==> order[k] < |raw|
      ensures content == Rendered("", Pick(raw, order)) && IsTranscript(Pick(raw, order), content)
    {
      hide IsTranscript, Line;
      content := "";
      TranscriptIsLongest(Pick(raw, order));
      ghost var rows := Pick(raw, order);
      var k := 0;
      while k < |order|
        invariant 0 <= k <= |order|
        invariant Rendered("", rows) == Rendered(content, rows[k..])
      {
        var line := Line(raw[order[k]]);
        assert rows[k..][1..] == rows[k + 1..];
        if |content| + |line| > CONTENT_BUDGET {
          content := content + ['\U{2026}'];
          return;
        }
        content := content + line;
        k := k + 1;
      }
    }

    method SetMeta(n: nat, t: nat, turns: nat)
      requires n in nodes
      modifies this`nodes
      ensures nodes == old(nodes)[n := old(nodes)[n].(thread := Some(t), turns := turns)]
    {
      nodes := nodes[n := nodes[n].(thread := Some(t), turns := turns)];
    }

    method AddEdge(n: nat, i: nat)
      requires n in nodes
      modifies this`nodes
      ensures nodes == old(nodes)[n := old(nodes)[n].(raws := old(nodes)[n].raws + {i})]
    {
      nodes := nodes[n := nodes[n].(raws := nodes[n].raws + {i})];
    }

    /** The lineage, one turn at a time. */
    method WriteLineage(n: nat, order: seq<nat>)
      requires n in nodes
      modifies this`nodes
      ensures nodes == old(nodes)[n := Linked(old(nodes)[n], Elements(order))]
    {
      assert Linked(nodes[n], Elements(order[..0])) == nodes[n] by {
        assert nodes[n].raws + Elements(order[..0]) == nodes[n].raws;
      }
      assert nodes == nodes[n := nodes[n]];
      for k := 0 to |order|
        invariant n in nodes
        invariant nodes == old(nodes)[n := Linked(old(nodes)[n], Elements(order[..k]))]
      {
        assert Elements(order[..k + 1]) == Elements(order[..k]) + {order[k]};
        AddEdge(n, order[k]);
        assert nodes[n] == Linked(old(nodes)[n], Elements(order[..k + 1]));
      }
      assert order[..|order|] == order;
    }

    /** The node's own row: a new one, or new content over an old one whose edges are dropped. */
    method WriteNode(m: Mode, n: nat, content: string, started: int, refresh: bool)
      requires refresh ==> n in nodes && nodes[n].mode == m
      modifies this`nodes
      ensures n in nodes && nodes == old(nodes)[n := nodes[n]]
      ensures nodes[n].mode == m && nodes[n].content == content && nodes[n].eventTime == started && nodes[n].raws == {}
      ensures refresh ==> nodes[n].thread == old(nodes)[n].thread && nodes[n].turns == old(nodes)[n].turns
      ensures !refresh ==> nodes[n].thread.None? && nodes[n].turns == 0
    {
      if refresh {
        nodes := nodes[n := nodes[n].(content := content, eventTime := started)];
        nodes := nodes[n := nodes[n].(raws := {})];
      } else {
        nodes := nodes[n := Node(m, None, 0, content, started, {})];
      }
    }

    /** Derives a session's episode under node `n`: inserted fresh, or rewritten in place. */
    method WriteSessionEpisode(m: Mode, n: nat, t: nat, order: seq<nat>, refresh: bool)
      requires order != [] && order == Ordered(raw, Turns(Now(), m, t), |raw|)
      requires |order| == |Turns(Now(), m, t)| && Elements(order) == Turns(Now(), m, t)
      requires refresh ==> n in nodes && nodes[n].mode == m
      modifies this`nodes
      ensures nodes == old(nodes)[n := SessionNode(raw, Turns(old(Now()), m, t), m, t)]
    {
      hide IsTranscript, Rendered;
      ghost var turns, before := Turns(Now(), m, t), nodes;
      var content := RenderTranscript(order);
      var started := raw[order[0]].eventTime;
      WriteNode(m, n, content, started, refresh);
      SetMeta(n, t, |order|);
      WriteLineage(n, order);
      EpisodeWritten(raw, turns, m, t, content, nodes[n]);
      assert nodes == before[n := nodes[n]];
    }

    method PromoteSession(m: Mode, t: nat)
      requires Turns(Now(), m, t) != {}
      modifies this`nodes, this`next
      ensures Now() == WithNode(old(Now()), SessionNode(raw, Turns(old(Now()), m, t), m, t))
    {
      var order := LoadSessionTurns(m, t);
      WriteSessionEpisode(m, next, t, order, false);
      next := next + 1;
    }

    /** One episode per session that has none yet. */
    method PromoteSessions(m: Mode, cap: nat) returns (sessions: seq<nat>)
      modifies this`nodes, this`next
      ensures Batch(PendingSessions(old(Now()), m), OwnOrder, cap, sessions)
      ensures Now() == WithNodes(old(Now()), SessionNodes(old(Now()), m, sessions))
    {
      ghost var db := Now();
      sessions := Smallest(PendingSessions(Now(), m), OwnOrder, cap);
      for k := 0 to |sessions|
        invariant Now() == WithNodes(db, SessionNodes(db, m, sessions)[..k])
      {
        TurnsReadRaw(Now(), db, m, sessions[k]);
        PendingHasTurns(db, m, sessions[k]);
        WithNodesStep(db, SessionNodes(db, m, sessions), k);
        PromoteSession(m, sessions[k]);
      }
      assert SessionNodes(db, m, sessions)[..|sessions|] == SessionNodes(db, m, sessions);
    }

    /** One listed episode, from its session's turns, if there are any left. */
    method RefreshOne(m: Mode, n: nat) returns (done: bool)
      requires n in nodes && nodes[n].mode == m && nodes[n].thread.Some?
      modifies this`nodes
      ensures Now() == old(Now()).(nodes := old(nodes)[n := Refreshed(old(Now()), m, n)])
      ensures done <==> Turns(old(Now()), m, old(nodes)[n].thread.value) != {}
    {
      var t := nodes[n].thread.value;
      var order := LoadSessionTurns(m, t);
      done := order != [];
      if done {
        WriteSessionEpisode(m, n, t, order, true);
      } else {
        assert Elements(order) == {};
      }
    }

    /** The listed episodes, one after the other. */
    method RefreshAll(m: Mode, ghost cap: nat, stale: seq<nat>) returns (refreshed: nat)
      requires Batch(StaleEpisodes(Now(), m), OwnOrder, cap, stale)
      modifies this`nodes
      ensures Now() == WithRefreshed(old(Now()), m, stale)
      ensures refreshed == |Refillable(old(Now()), m, stale)|
    {
      ghost var db := Now();
      refreshed := 0;
      NoneRefreshed(db, m, stale);
      for k := 0 to |stale|
        invariant Now() == WithRefreshed(db, m, stale[..k])
        invariant refreshed == |Refillable(db, m, stale[..k])|
      {
        NextRefresh(db, Now(), m, cap, stale, k);
        var done := RefreshOne(m, stale[k]);
        refreshed := if done then refreshed + 1 else refreshed;
      }
      assert stale[..|stale|] == stale;
    }

    /** Episodes whose session grew are rewritten under the same id. */
    method RefreshGrown(m: Mode, cap: nat) returns (stale: seq<nat>, refreshed: nat)
      modifies this`nodes
      ensures Batch(StaleEpisodes(old(Now()), m), OwnOrder, cap, stale)
      ensures Now() == WithRefreshed(old(Now()), m, stale)
      ensures refreshed == |Refillable(old(Now()), m, stale)|
    {
      stale := Smallest(StaleEpisodes(Now(), m), OwnOrder, cap);
      refreshed := RefreshAll(m, cap, stale);
    }

    method PromoteSolo(m: Mode, i: nat)
      requires i < |raw| && raw[i].mode == m
      modifies this`nodes, this`next
      ensures Now() == WithNode(old(Now()), SoloNode(raw, i))
    {
      nodes := nodes[next := Node(m, None, 0, raw[i].content, raw[i].eventTime, {})];
      AddEdge(next, i);
      assert nodes[next] == SoloNode(raw, i);
      next := next + 1;
    }

    /** Documents and threadless turns, one episode each. */
    method PromoteSolos(m: Mode, cap: nat) returns (solos: seq<nat>)
      modifies this`nodes, this`next
      ensures Batch(PendingSolos(old(Now()), m), TimeOf(raw), cap, solos)
      ensures forall k :: 0 <= k < |solos| ==> solos[k] < |raw|
      ensures Now() == WithNodes(old(Now()), SoloNodes(old(Now()), solos))
    {
      ghost var db := Now();
      solos := Smallest(PendingSolos(Now(), m), TimeOf(raw), cap);
      assert forall k :: 0 <= k < |solos| ==> solos[k] in PendingSolos(db, m);
      ghost var all := SoloNodes(db, solos);
      for k := 0 to |solos|
        invariant Now() == WithNodes(db, all[..k])
      {
        WithNodesStep(db, all, k);
        PromoteSolo(m, solos[k]);
      }
      assert all[..|solos|] == all;
    }

    /** One promotion pass over a register. */
    method Promote(m: Mode, cap: nat) returns (p: Pass, promoted: nat, refreshed: nat)
      requires Sound(Now())
      modifies this
      ensures Step(old(Now()), Event.Promote(p), Now()) && p.mode == m && p.cap == cap
      ensures Sound(Now())
      ensures promoted == |p.sessions| + |p.solos|
      ensures refreshed == |Refillable(WithNodes(old(Now()), SessionNodes(old(Now()), m, p.sessions)), m, p.stale)|
    {
      ghost var db := Now();
      var sessions := PromoteSessions(m, cap);
      SessionsStage(db, m, sessions);
      ghost var one := Now();
      var stale;
      stale, refreshed := RefreshGrown(m, cap);
      RefreshStage(one, m, stale);
      ghost var two := Now();
      var solos := PromoteSolos(m, cap);
      SolosStage(two, m, solos);
      p := Pass(m, cap, sessions, stale, solos);
      promoted := |sessions| + |solos|;
    }

    /** The recovery path's first step: every episode goes, raw stays. */
    method Wipe()
      modifies this`nodes
      ensures Now() == Wiped(old(Now()))
    {
      nodes := map[];
    }
  }

  /** The listed episodes whose session still has a turn. */
  ghost function Refillable(db: Tables, m: Mode, q: seq<nat>): set<nat> {
    set n | n in q && n in db.nodes && db.nodes[n].thread.Some? && Turns(db, m, db.nodes[n].thread.value) != {}
  }

  lemma RefillableStep(db: Tables, m: Mode, q: seq<nat>, k: nat)
    requires k < |q| && q[k] !in q[..k] && q[k] in db.nodes && db.nodes[q[k]].thread.Some?
    ensures |Refillable(db, m, q[..k + 1])| == |Refillable(db, m, q[..k])|
              + if Turns(db, m, db.nodes[q[k]].thread.value) == {} then 0 else 1
  {
    assert q[..k + 1] == q[..k] + [q[k]];
    assert Refillable(db, m, q[..k + 1]) == Refillable(db, m, q[..k])
      + if Turns(db, m, db.nodes[q[k]].thread.value) == {} then {} else {q[k]};
  }

  lemma RefreshedReads(a: Tables, b: Tables, m: Mode, n: nat)
    requires a.raw == b.raw && a.gone == b.gone && n in a.nodes && n in b.nodes && a.nodes[n] == b.nodes[n]
    ensures Refreshed(a, m, n) == Refreshed(b, m, n)
  {
    if a.nodes[n].thread.Some? { TurnsReadRaw(a, b, m, a.nodes[n].thread.value); }
  }

  lemma NoneRefreshed(db: Tables, m: Mode, q: seq<nat>)
    ensures WithRefreshed(db, m, q[..0]) == db && Refillable(db, m, q[..0]) == {}
  {
    assert WithRefreshed(db, m, q[..0]).nodes == db.nodes;
  }

  /** What rewriting the next listed episode amounts to, in the tables as they are now. */
  lemma NextRefresh(db: Tables, now: Tables, m: Mode, cap: nat, q: seq<nat>, k: nat)
    requires Batch(StaleEpisodes(db, m), OwnOrder, cap, q) && k < |q| && now == WithRefreshed(db, m, q[..k])
    ensures q[k] in now.nodes && now.nodes[q[k]].mode == m && now.nodes[q[k]].thread.Some?
    ensures WithRefreshed(db, m, q[..k + 1]) == now.(nodes := now.nodes[q[k] := Refreshed(now, m, q[k])])
    ensures |Refillable(db, m, q[..k + 1])| == |Refillable(db, m, q[..k])|
              + if Turns(now, m, now.nodes[q[k]].thread.value) == {} then 0 else 1
  {
    var n := q[k];
    assert IsStale(db, m, n) && n !in q[..k];
    RefreshStep(db, m, q, k);
    RefillableStep(db, m, q, k);
    TurnsReadRaw(now, db, m, db.nodes[n].thread.value);
    RefreshedReads(now, db, m, n);
  }

  function Linked(node: Node, edges: set<nat>): Node {
    node.(raws := node.raws + edges)
  }

  lemma EpisodeWritten(raw: seq<Row>, turns: set<nat>, m: Mode, t: nat, content: string, node: Node)
    requires var order := Ordered(raw, turns, |raw|);
             order != [] && content == Rendered("", Pick(raw, order)) && node.eventTime == raw[order[0]].eventTime
    requires node.mode == m && node.thread == Some(t) && node.turns == |turns|
    requires node.content == content && node.raws == turns
    ensures node == SessionNode(raw, turns, m, t)
  {
  }

  lemma WithNodesStep(db: Tables, nodes: seq<Node>, k: nat)
    requires k < |nodes|
    ensures WithNodes(db, nodes[..k + 1]) == WithNode(WithNodes(db, nodes[..k]), nodes[k])
  {
    assert nodes[..k + 1][..k] == nodes[..k];
  }

  /** Refreshing one more listed episode. */
  lemma RefreshStep(db: Tables, m: Mode, q: seq<nat>, k: nat)
    requires k < |q| && q[k] in db.nodes && q[k] !in q[..k]
    ensures WithRefreshed(db, m, q[..k + 1]).nodes == WithRefreshed(db, m, q[..k]).nodes[q[k] := Refreshed(db, m, q[k])]
    ensures WithRefreshed(db, m, q[..k]).nodes[q[k]] == db.nodes[q[k]]
  {
    assert q[..k + 1] == q[..k] + [q[k]];
  }
}
