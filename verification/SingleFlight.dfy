/** Curation passes and rebuilds as interleaved single statements. Records arrive at any
    time, any number of passes try to start, and a pass may stop - finished, failed or
    killed - between any two statements, leaving a half-written episode behind. The
    advisory lock is all that keeps two passes from writing at once. */
module SingleFlight {
  import opened Prelude
  import opened Batches
  import opened Episodes
  import opened Rebuildable

  /** Where a pass is. `todo` is what is left of the listing it is working through;
      `isNew` tells a new episode from a refresh of an old one. */
  datatype Pc =
    | Idle
    | Holding
    | Sessions(m: Mode, todo: seq<nat>)
    | Stale(m: Mode, todo: seq<nat>)
    | Solos(m: Mode, todo: seq<nat>)
    | RowWritten(isNew: bool, m: Mode, n: nat, t: nat, turns: set<nat>, todo: seq<nat>)
    | EdgesDropped(m: Mode, n: nat, t: nat, turns: set<nat>, todo: seq<nat>)
    | MetaWritten(isNew: bool, m: Mode, n: nat, left: set<nat>, todo: seq<nat>)
    | SoloInserted(m: Mode, n: nat, i: nat, todo: seq<nat>)

  datatype World = World(db: Tables, lock: Option<nat>, passes: map<nat, Pc>)

  datatype Action =
    | NewRecord(row: Row, claim: Option<nat>)
    | TryLock(p: nat)
    | Stop(p: nat)
    | WipeAll(p: nat)
    | ListSessions(p: nat, m: Mode, cap: nat, q: seq<nat>)
    | ListStale(p: nat, m: Mode, cap: nat, q: seq<nat>)
    | ListSolos(p: nat, m: Mode, cap: nat, q: seq<nat>)
    | EndList(p: nat)
    | WriteRow(p: nat)
    | DropEdges(p: nat)
    | WriteMeta(p: nat)
    | LinkTurn(p: nat, i: nat)
    | EndEpisode(p: nat)
    | InsertSolo(p: nat)
    | LinkSolo(p: nat)

  function PcOf(w: World, p: nat): Pc {
    if p in w.passes then w.passes[p] else Idle
  }

  ghost predicate Enabled(w: World, a: Action) {
    match a
    case NewRecord(_, claim) => claim.Some? ==> claim.value < |w.db.raw|
    case TryLock(p) => PcOf(w, p).Idle?
    case Stop(p) => !PcOf(w, p).Idle?
    case WipeAll(p) => PcOf(w, p).Holding?
    case ListSessions(p, m, cap, q) => PcOf(w, p).Holding? && Batch(PendingSessions(w.db, m), OwnOrder, cap, q)
    case ListStale(p, m, cap, q) => PcOf(w, p).Holding? && Batch(StaleEpisodes(w.db, m), OwnOrder, cap, q)
    case ListSolos(p, m, cap, q) => PcOf(w, p).Holding? && Batch(PendingSolos(w.db, m), TimeOf(w.db.raw), cap, q)
    case EndList(p) =>
      var pc := PcOf(w, p); (pc.Sessions? || pc.Stale? || pc.Solos?) && pc.todo == []
    case WriteRow(p) =>
      var pc := PcOf(w, p);
      (pc.Sessions? || (pc.Stale? && pc.todo != [] && pc.todo[0] in w.db.nodes && w.db.nodes[pc.todo[0]].thread.Some?))
      && pc.todo != []
    case DropEdges(p) => var pc := PcOf(w, p); pc.RowWritten? && !pc.isNew && pc.n in w.db.nodes
    case WriteMeta(p) =>
      var pc := PcOf(w, p); ((pc.RowWritten? && pc.isNew) || pc.EdgesDropped?) && pc.n in w.db.nodes
    case LinkTurn(p, i) => var pc := PcOf(w, p); pc.MetaWritten? && i in pc.left && pc.n in w.db.nodes
    case EndEpisode(p) => var pc := PcOf(w, p); pc.MetaWritten? && pc.left == {}
    case InsertSolo(p) => var pc := PcOf(w, p); pc.Solos? && pc.todo != [] && pc.todo[0] < |w.db.raw|
    case LinkSolo(p) => var pc := PcOf(w, p); pc.SoloInserted? && pc.n in w.db.nodes
  }

  function Goto(w: World, p: nat, pc: Pc): World {
    w.(passes := w.passes[p := pc])
  }

  function SetNode(db: Tables, n: nat, node: Node): Tables {
    db.(nodes := db.nodes[n := node])
  }

  /** The row an episode starts from: its content, no meta, no edges yet. */
  function BareNode(raw: seq<Row>, turns: set<nat>, m: Mode, t: nat): Node {
    var full := SessionNode(raw, turns, m, t);
    Node(m, None, 0, full.content, full.eventTime, {})
  }

  function WriteRowAfter(w: World, p: nat): World
    requires var pc := PcOf(w, p); (pc.Sessions? || pc.Stale?) && pc.todo != []
    requires var pc := PcOf(w, p); pc.Stale? ==> pc.todo[0] in w.db.nodes && w.db.nodes[pc.todo[0]].thread.Some?
  {
    var pc := PcOf(w, p);
    if pc.Sessions? then
      var turns := Turns(w.db, pc.m, pc.todo[0]);
      if turns == {} then Goto(w, p, Sessions(pc.m, pc.todo[1..]))
      else Goto(w.(db := WithNode(w.db, BareNode(w.db.raw, turns, pc.m, pc.todo[0]))), p,
                RowWritten(true, pc.m, w.db.next, pc.todo[0], turns, pc.todo[1..]))
    else
      var n, node := pc.todo[0], w.db.nodes[pc.todo[0]];
      var turns := Turns(w.db, pc.m, node.thread.value);
      var full := SessionNode(w.db.raw, turns, pc.m, node.thread.value);
      if turns == {} then Goto(w, p, Stale(pc.m, pc.todo[1..]))
      else Goto(w.(db := SetNode(w.db, n, node.(content := full.content, eventTime := full.eventTime))), p,
                RowWritten(false, pc.m, n, node.thread.value, turns, pc.todo[1..]))
  }

  function After(w: World, a: Action): World
    requires Enabled(w, a)
  {
    match a
    case NewRecord(row, claim) => w.(db := Arrived(w.db, row, claim))
    case TryLock(p) => if w.lock.None? then Goto(w.(lock := Some(p)), p, Holding) else w
    case Stop(p) => Goto(w.(lock := None), p, Idle)
    case WipeAll(p) => w.(db := Wiped(w.db))
    case ListSessions(p, m, _, q) => Goto(w, p, Sessions(m, q))
    case ListStale(p, m, _, q) => Goto(w, p, Stale(m, q))
    case ListSolos(p, m, _, q) => Goto(w, p, Solos(m, q))
    case EndList(p) => Goto(w, p, Holding)
    case WriteRow(p) => WriteRowAfter(w, p)
    case DropEdges(p) =>
      var pc := PcOf(w, p);
      Goto(w.(db := SetNode(w.db, pc.n, w.db.nodes[pc.n].(raws := {}))), p, EdgesDropped(pc.m, pc.n, pc.t, pc.turns, pc.todo))
    case WriteMeta(p) =>
      var pc := PcOf(w, p);
      Goto(w.(db := SetNode(w.db, pc.n, w.db.nodes[pc.n].(thread := Some(pc.t), turns := |pc.turns|))), p,
           MetaWritten(pc.RowWritten?, pc.m, pc.n, pc.turns, pc.todo))
    case LinkTurn(p, i) =>
      var pc := PcOf(w, p);
      Goto(w.(db := SetNode(w.db, pc.n, w.db.nodes[pc.n].(raws := w.db.nodes[pc.n].raws + {i}))), p, pc.(left := pc.left - {i}))
    case EndEpisode(p) =>
      var pc := PcOf(w, p);
      Goto(w, p, if pc.isNew then Sessions(pc.m, pc.todo) else Stale(pc.m, pc.todo))
    case InsertSolo(p) =>
      var pc := PcOf(w, p);
      var i := pc.todo[0];
      Goto(w.(db := WithNode(w.db, SoloNode(w.db.raw, i).(raws := {}))), p, SoloInserted(pc.m, w.db.next, i, pc.todo[1..]))
    case LinkSolo(p) =>
      var pc := PcOf(w, p);
      Goto(w.(db := SetNode(w.db, pc.n, w.db.nodes[pc.n].(raws := w.db.nodes[pc.n].raws + {pc.i}))), p, Solos(pc.m, pc.todo))
  }

  const START := World(EMPTY_TABLES, None, map[])

  ghost predicate Schedule(ws: seq<World>, acts: seq<Action>) {
    && |ws| == |acts| + 1 && ws[0] == START
    && forall k :: 0 <= k < |acts| ==> Enabled(ws[k], acts[k]) && ws[k + 1] == After(ws[k], acts[k])
  }

  // ---------------------------------------------------------------------------
  // The invariant
  // ---------------------------------------------------------------------------

  ghost predicate SameSession(a: Node, b: Node) {
    a.thread.Some? && a.thread == b.thread && a.mode == b.mode
  }

  ghost predicate SharesSolo(db: Tables, a: nat, b: nat, i: nat)
    requires a in db.nodes && b in db.nodes
  {
    IsStandalone(db.raw, i) && i in db.nodes[a].raws && i in db.nodes[b].raws
  }

  /** At most one episodic node per (register, thread), and at most one episodic
      `derived_from` edge per standalone row. */
  ghost predicate EpisodesUnique(db: Tables) {
    && (forall a, b :: a in db.nodes && b in db.nodes && SameSession(db.nodes[a], db.nodes[b]) ==> a == b)
    && (forall a, b, i :: a in db.nodes && b in db.nodes && SharesSolo(db, a, b, i) ==> a == b)
  }

  /** Node ids are allocated; edges and supersession marks point at rows. */
  ghost predicate EdgesInRange(db: Tables) {
    && (forall n :: n in db.nodes ==> n < db.next)
    && (forall n, i :: n in db.nodes && i in db.nodes[n].raws ==> i < |db.raw|)
    && (forall g :: g in db.gone ==> g < |db.raw|)
  }

  ghost predicate NoSessionYet(db: Tables, m: Mode, todo: seq<nat>) {
    Distinct(todo) && forall k :: 0 <= k < |todo| ==> !HasSession(db, m, todo[k])
  }

  ghost predicate NotCoveredYet(db: Tables, todo: seq<nat>) {
    Distinct(todo) && forall k :: 0 <= k < |todo| ==> IsStandalone(db.raw, todo[k]) && !IsCovered(db, todo[k])
  }

  ghost predicate AllSessions(db: Tables, m: Mode, todo: seq<nat>) {
    forall k :: 0 <= k < |todo| ==> IsSession(db, m, todo[k])
  }

  ghost predicate IsSession(db: Tables, m: Mode, n: nat) {
    n in db.nodes && db.nodes[n].mode == m && db.nodes[n].thread.Some?
  }

  ghost predicate AllTurns(db: Tables, turns: set<nat>) {
    forall i :: i in turns ==> i < |db.raw| && !IsStandalone(db.raw, i)
  }

  ghost predicate PcOk(db: Tables, pc: Pc) {
    match pc
    case Idle => true
    case Holding => true
    case Sessions(m, todo) => NoSessionYet(db, m, todo)
    case Stale(m, todo) => AllSessions(db, m, todo)
    case Solos(m, todo) => NotCoveredYet(db, todo)
    case RowWritten(isNew, m, n, t, turns, todo) =>
      && n in db.nodes && db.nodes[n].mode == m && AllTurns(db, turns)
      && if isNew then db.nodes[n].thread.None? && NoSessionYet(db, m, [t] + todo)
         else db.nodes[n].thread == Some(t) && AllSessions(db, m, todo)
    case EdgesDropped(m, n, t, turns, todo) =>
      && n in db.nodes && db.nodes[n].mode == m && AllTurns(db, turns)
      && db.nodes[n].thread == Some(t) && AllSessions(db, m, todo)
    case MetaWritten(isNew, m, n, left, todo) =>
      && IsSession(db, m, n) && AllTurns(db, left)
      && if isNew then NoSessionYet(db, m, todo) else AllSessions(db, m, todo)
    case SoloInserted(m, n, i, todo) => n in db.nodes && NotCoveredYet(db, [i] + todo)
  }

  ghost predicate Inv(w: World) {
    && EpisodesUnique(w.db) && EdgesInRange(w.db)
    && (forall p: nat :: !PcOf(w, p).Idle? ==> w.lock == Some(p))
    && (forall p: nat :: PcOk(w.db, PcOf(w, p)))
  }

  /** Only the lock holder moves, so only its place in the pass has to be re-established. */
  lemma HolderMoves(w: World, w': World, p: nat)
    requires Inv(w) && w.lock == Some(p) && w'.lock == Some(p)
    requires p in w'.passes && w'.passes == w.passes[p := w'.passes[p]]
    requires EpisodesUnique(w'.db) && EdgesInRange(w'.db) && PcOk(w'.db, PcOf(w', p))
    ensures Inv(w')
  {
    forall q: nat
      ensures !PcOf(w', q).Idle? ==> w'.lock == Some(q)
      ensures PcOk(w'.db, PcOf(w', q))
    {
      if q != p {
        assert PcOf(w', q) == PcOf(w, q);
      }
    }
  }

  // ---------------------------------------------------------------------------
  // Every statement keeps it
  // ---------------------------------------------------------------------------

  ghost predicate TablesOk(db: Tables) {
    EpisodesUnique(db) && EdgesInRange(db)
  }

  /** A bare row, not yet tied to a session or to any record. */
  lemma BareRowChangesNothing(db: Tables, node: Node)
    requires TablesOk(db) && node.thread.None? && node.raws == {}
    ensures TablesOk(WithNode(db, node)) && db.next !in db.nodes
    ensures forall m: Mode, t: nat :: HasSession(WithNode(db, node), m, t) <==> HasSession(db, m, t)
    ensures forall i: nat :: IsCovered(WithNode(db, node), i) <==> IsCovered(db, i)
  {
    var db' := WithNode(db, node);
    forall a, b, i | a in db'.nodes && b in db'.nodes && SharesSolo(db', a, b, i)
      ensures a == b
    {
      assert SharesSolo(db, a, b, i);
    }
    forall m: Mode, t: nat
      ensures HasSession(db', m, t) <==> HasSession(db, m, t)
    {
      if HasSession(db, m, t) {
        var n :| n in db.nodes && db.nodes[n].mode == m && db.nodes[n].thread == Some(t);
        assert db'.nodes[n] == db.nodes[n];
      }
    }
    forall i: nat
      ensures IsCovered(db', i) <==> IsCovered(db, i)
    {
      if IsCovered(db, i) {
        var n :| n in db.nodes && i in db.nodes[n].raws;
        assert i in db'.nodes[n].raws;
      }
    }
  }

  /** Rewriting a node under the same register and thread; its standalone edges may only shrink. */
  lemma RewriteKeepsTables(db: Tables, n: nat, node: Node)
    requires TablesOk(db) && n in db.nodes
    requires node.mode == db.nodes[n].mode && node.thread == db.nodes[n].thread
    requires forall i :: i in node.raws && i !in db.nodes[n].raws ==> i < |db.raw| && !IsStandalone(db.raw, i)
    ensures TablesOk(SetNode(db, n, node))
    ensures forall m: Mode, t: nat :: HasSession(SetNode(db, n, node), m, t) <==> HasSession(db, m, t)
    ensures forall x, m: Mode :: IsSession(db, m, x) ==> IsSession(SetNode(db, n, node), m, x)
  {
    var db' := SetNode(db, n, node);
    forall a, b, i | a in db'.nodes && b in db'.nodes && SharesSolo(db', a, b, i)
      ensures a == b
    {
      assert SharesSolo(db, a, b, i);
    }
    forall a, b | a in db'.nodes && b in db'.nodes && SameSession(db'.nodes[a], db'.nodes[b])
      ensures a == b
    {
      assert SameSession(db.nodes[a], db.nodes[b]);
    }
    forall m: Mode, t: nat
      ensures HasSession(db', m, t) <==> HasSession(db, m, t)
    {
      if HasSession(db, m, t) {
        var x :| x in db.nodes && db.nodes[x].mode == m && db.nodes[x].thread == Some(t);
        assert db'.nodes[x].mode == m && db'.nodes[x].thread == Some(t);
      }
      if HasSession(db', m, t) {
        var x :| x in db'.nodes && db'.nodes[x].mode == m && db'.nodes[x].thread == Some(t);
        assert db.nodes[x].mode == m && db.nodes[x].thread == Some(t);
      }
    }
  }

  lemma SetMetaKeepsTables(db: Tables, n: nat, t: nat, turns: nat)
    requires TablesOk(db) && n in db.nodes && db.nodes[n].thread.None? && !HasSession(db, db.nodes[n].mode, t)
    ensures var db' := SetNode(db, n, db.nodes[n].(thread := Some(t), turns := turns));
            && TablesOk(db')
            && forall m: Mode, u: nat :: HasSession(db', m, u) <==> HasSession(db, m, u) || (m == db.nodes[n].mode && u == t)
  {
    var node := db.nodes[n].(thread := Some(t), turns := turns);
    var db' := SetNode(db, n, node);
    forall a, b, i | a in db'.nodes && b in db'.nodes && SharesSolo(db', a, b, i)
      ensures a == b
    {
      assert SharesSolo(db, a, b, i);
    }
    forall a, b | a in db'.nodes && b in db'.nodes && SameSession(db'.nodes[a], db'.nodes[b])
      ensures a == b
    {
      if a != n && b != n { assert SameSession(db.nodes[a], db.nodes[b]); }
    }
    forall m: Mode, u: nat
      ensures HasSession(db', m, u) <==> HasSession(db, m, u) || (m == node.mode && u == t)
    {
      if HasSession(db, m, u) {
        var x :| x in db.nodes && db.nodes[x].mode == m && db.nodes[x].thread == Some(u);
        assert x != n && db'.nodes[x] == db.nodes[x];
      }
      assert db'.nodes[n] == node;
    }
  }

  lemma LinkSoloKeepsTables(db: Tables, n: nat, i: nat)
    requires TablesOk(db) && n in db.nodes && IsStandalone(db.raw, i) && !IsCovered(db, i)
    ensures var db' := SetNode(db, n, db.nodes[n].(raws := db.nodes[n].raws + {i}));
            && TablesOk(db')
            && forall j: nat :: IsCovered(db', j) <==> IsCovered(db, j) || j == i
  {
    var db' := SetNode(db, n, db.nodes[n].(raws := db.nodes[n].raws + {i}));
    forall a, b, j | a in db'.nodes && b in db'.nodes && SharesSolo(db', a, b, j)
      ensures a == b
    {
      if j != i { assert SharesSolo(db, a, b, j); }
    }
    forall a, b | a in db'.nodes && b in db'.nodes && SameSession(db'.nodes[a], db'.nodes[b])
      ensures a == b
    {
      assert SameSession(db.nodes[a], db.nodes[b]);
    }
    forall j: nat
      ensures IsCovered(db', j) <==> IsCovered(db, j) || j == i
    {
      if IsCovered(db, j) {
        var x :| x in db.nodes && j in db.nodes[x].raws;
        assert j in db'.nodes[x].raws;
      }
      assert i in db'.nodes[n].raws;
    }
  }

  lemma ArrivalKeepsTables(db: Tables, row: Row, claim: Option<nat>, pc: Pc)
    requires TablesOk(db) && PcOk(db, pc) && (claim.Some? ==> claim.value < |db.raw|)
    ensures TablesOk(Arrived(db, row, claim)) && PcOk(Arrived(db, row, claim), pc)
  {
    var db' := Arrived(db, row, claim);
    forall a, b, i | a in db'.nodes && b in db'.nodes && SharesSolo(db', a, b, i)
      ensures a == b
    {
      assert SharesSolo(db, a, b, i);
    }
    forall m: Mode, t: nat
      ensures HasSession(db', m, t) <==> HasSession(db, m, t)
    {
    }
    forall i: nat
      ensures IsCovered(db', i) <==> IsCovered(db, i)
    {
    }
  }

  lemma ArrivalKeepsInv(w: World, row: Row, claim: Option<nat>)
    requires Inv(w) && Enabled(w, NewRecord(row, claim))
    ensures Inv(After(w, NewRecord(row, claim)))
  {
    var w' := After(w, NewRecord(row, claim));
    ArrivalKeepsTables(w.db, row, claim, Idle);
    forall p: nat
      ensures PcOk(w'.db, PcOf(w', p))
    {
      assert PcOf(w', p) == PcOf(w, p);
      ArrivalKeepsTables(w.db, row, claim, PcOf(w, p));
    }
  }

  lemma LockingKeepsInv(w: World, a: Action)
    requires Inv(w) && Enabled(w, a) && (a.TryLock? || a.Stop?)
    ensures Inv(After(w, a))
  {
    var w' := After(w, a);
    forall q: nat
      ensures !PcOf(w', q).Idle? ==> w'.lock == Some(q)
      ensures PcOk(w'.db, PcOf(w', q))
    {
      assert q != a.p ==> PcOf(w', q) == PcOf(w, q);
    }
  }

  lemma ListingKeepsInv(w: World, a: Action)
    requires Inv(w) && Enabled(w, a) && (a.ListSessions? || a.ListStale? || a.ListSolos? || a.EndList? || a.WipeAll?)
    ensures Inv(After(w, a))
  {
    var w' := if a.WipeAll? then Goto(After(w, a), a.p, Holding) else After(w, a);
    match a {
      case ListSessions(p, m, cap, q) =>
        forall k | 0 <= k < |q|
          ensures !HasSession(w.db, m, q[k])
        {
          PendingHasTurns(w.db, m, q[k]);
        }
      case _ =>
    }
    HolderMoves(w, w', a.p);
    if a.WipeAll? {
      forall p: nat
        ensures PcOf(After(w, a), p) == PcOf(w', p)
      {
      }
    }
  }

  lemma WriteRowKeepsInv(w: World, p: nat)
    requires Inv(w) && Enabled(w, WriteRow(p))
    ensures Inv(After(w, WriteRow(p)))
  {
    var w' := After(w, WriteRow(p));
    var pc := PcOf(w, p);
    assert PcOk(w.db, pc);
    if pc.Sessions? {
      var turns := Turns(w.db, pc.m, pc.todo[0]);
      assert [pc.todo[0]] + pc.todo[1..] == pc.todo;
      if turns != {} {
        BareRowChangesNothing(w.db, BareNode(w.db.raw, turns, pc.m, pc.todo[0]));
      }
    } else {
      var n := pc.todo[0];
      assert IsSession(w.db, pc.m, n);
      var node := w.db.nodes[n];
      var full := SessionNode(w.db.raw, Turns(w.db, pc.m, node.thread.value), pc.m, node.thread.value);
      RewriteKeepsTables(w.db, n, node.(content := full.content, eventTime := full.eventTime));
    }
    HolderMoves(w, w', p);
  }

  lemma RewriteStatementKeepsInv(w: World, a: Action)
    requires Inv(w) && Enabled(w, a) && (a.DropEdges? || a.LinkTurn? || a.EndEpisode?)
    ensures Inv(After(w, a))
  {
    var pc := PcOf(w, a.p);
    assert PcOk(w.db, pc);
    match a {
      case DropEdges(p) => RewriteKeepsTables(w.db, pc.n, w.db.nodes[pc.n].(raws := {}));
      case LinkTurn(p, i) => RewriteKeepsTables(w.db, pc.n, w.db.nodes[pc.n].(raws := w.db.nodes[pc.n].raws + {i}));
      case _ =>
    }
    HolderMoves(w, After(w, a), a.p);
  }

  lemma WriteMetaKeepsInv(w: World, p: nat)
    requires Inv(w) && Enabled(w, WriteMeta(p))
    ensures Inv(After(w, WriteMeta(p)))
  {
    var pc := PcOf(w, p);
    assert PcOk(w.db, pc);
    var node := w.db.nodes[pc.n].(thread := Some(pc.t), turns := |pc.turns|);
    if pc.RowWritten? {
      var all := [pc.t] + pc.todo;
      assert !HasSession(w.db, pc.m, all[0]);
      SetMetaKeepsTables(w.db, pc.n, pc.t, |pc.turns|);
      forall k | 0 <= k < |pc.todo|
        ensures !HasSession(After(w, WriteMeta(p)).db, pc.m, pc.todo[k])
      {
        assert all[k + 1] == pc.todo[k] && all[0] != all[k + 1];
      }
      assert Distinct(pc.todo) by {
        forall i, j | 0 <= i < j < |pc.todo|
          ensures pc.todo[i] != pc.todo[j]
        {
          assert all[i + 1] != all[j + 1];
        }
      }
    } else {
      RewriteKeepsTables(w.db, pc.n, node);
    }
    HolderMoves(w, After(w, WriteMeta(p)), p);
  }

  lemma SoloKeepsInv(w: World, a: Action)
    requires Inv(w) && Enabled(w, a) && (a.InsertSolo? || a.LinkSolo?)
    ensures Inv(After(w, a))
  {
    var pc := PcOf(w, a.p);
    assert PcOk(w.db, pc);
    match a {
      case InsertSolo(p) =>
        assert [pc.todo[0]] + pc.todo[1..] == pc.todo;
        BareRowChangesNothing(w.db, SoloNode(w.db.raw, pc.todo[0]).(raws := {}));
      case LinkSolo(p) =>
        var all := [pc.i] + pc.todo;
        assert IsStandalone(w.db.raw, all[0]) && !IsCovered(w.db, all[0]);
        LinkSoloKeepsTables(w.db, pc.n, pc.i);
        forall k | 0 <= k < |pc.todo|
          ensures IsStandalone(w.db.raw, pc.todo[k]) && !IsCovered(After(w, a).db, pc.todo[k])
        {
          assert all[k + 1] == pc.todo[k] && all[0] != all[k + 1];
        }
        assert Distinct(pc.todo) by {
          forall i, j | 0 <= i < j < |pc.todo|
            ensures pc.todo[i] != pc.todo[j]
          {
            assert all[i + 1] != all[j + 1];
          }
        }
    }
    HolderMoves(w, After(w, a), a.p);
  }

  lemma ActionKeepsInv(w: World, a: Action)
    requires Inv(w) && Enabled(w, a)
    ensures Inv(After(w, a))
  {
    match a {
      case NewRecord(row, claim) => ArrivalKeepsInv(w, row, claim);
      case TryLock(_) => LockingKeepsInv(w, a);
      case Stop(_) => LockingKeepsInv(w, a);
      case WriteRow(p) => WriteRowKeepsInv(w, p);
      case WriteMeta(p) => WriteMetaKeepsInv(w, p);
      case DropEdges(_) => RewriteStatementKeepsInv(w, a);
      case LinkTurn(_, _) => RewriteStatementKeepsInv(w, a);
      case EndEpisode(_) => RewriteStatementKeepsInv(w, a);
      case InsertSolo(_) => SoloKeepsInv(w, a);
      case LinkSolo(_) => SoloKeepsInv(w, a);
      case _ => ListingKeepsInv(w, a);
    }
  }

  lemma {:induction false} ScheduleKeepsInv(ws: seq<World>, acts: seq<Action>, k: nat)
    requires Schedule(ws, acts) && k <= |acts|
    ensures Inv(ws[k])
  {
    if k > 0 {
      ScheduleKeepsInv(ws, acts, k - 1);
      assert Enabled(ws[k - 1], acts[k - 1]);
      ActionKeepsInv(ws[k - 1], acts[k - 1]);
    }
  }

  /** In every reachable state, whatever interleaves and wherever passes die: one episode
      per session, one covering edge per standalone row, one pass at a time. */
  lemma SingleFlight(ws: seq<World>, acts: seq<Action>, k: nat)
    requires Schedule(ws, acts) && k <= |acts|
    ensures EpisodesUnique(ws[k].db)
    ensures forall p: nat, q: nat :: !PcOf(ws[k], p).Idle? && !PcOf(ws[k], q).Idle? ==> p == q
  {
    ScheduleKeepsInv(ws, acts, k);
  }
}
