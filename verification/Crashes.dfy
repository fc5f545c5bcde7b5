/** What a pass that dies midway can leave behind. While no conversation turn is
    superseded, an episode that counts as up to date always carries the right transcript;
    the damage is confined to lineage edges and to rows that belong to no session, no
    later pass repairs it, and a wipe does. */
module Crashes {
  import opened Prelude
  import opened RecordTypes
  import opened Batches
  import opened Episodes
  import opened Rebuildable
  import opened SingleFlight

  // ---------------------------------------------------------------------------
  // Up to date means right
  // ---------------------------------------------------------------------------

  /** The node tells the story of these turns. */
  ghost predicate Tells(raw: seq<Row>, node: Node, turns: set<nat>, t: nat) {
    var full := SessionNode(raw, turns, node.mode, t);
    node.content == full.content && node.eventTime == full.eventTime
  }

  ghost predicate Current(db: Tables, node: Node) {
    match node.thread
    case Some(t) =>
      var turns := Turns(db, node.mode, t);
      && turns != {} && node.raws <= turns && node.turns <= |turns|
      && (node.turns == |turns| ==> Tells(db.raw, node, turns, t))
    case None => node.raws == {} || exists i: nat :: IsStandalone(db.raw, i) && node == SoloNode(db.raw, i)
  }

  ghost predicate AllCurrent(db: Tables) {
    forall n :: n in db.nodes ==> Current(db, db.nodes[n])
  }

  /** A session episode that counts fewer turns than its session now has. */
  ghost predicate Behind(db: Tables, m: Mode, n: nat) {
    IsSession(db, m, n) && db.nodes[n].turns < |Turns(db, m, db.nodes[n].thread.value)|
  }

  ghost predicate AllBehind(db: Tables, m: Mode, todo: seq<nat>) {
    Distinct(todo) && forall k :: 0 <= k < |todo| ==> Behind(db, m, todo[k])
  }

  /** What the pass has in hand is a non-empty set of active turns, and the row it wrote tells them. */
  ghost predicate InHand(db: Tables, m: Mode, n: nat, t: nat, turns: set<nat>) {
    && n in db.nodes && db.nodes[n].mode == m
    && turns != {} && turns <= Turns(db, m, t) && Tells(db.raw, db.nodes[n], turns, t)
  }

  ghost predicate Refreshing(db: Tables, m: Mode, n: nat, t: nat, turns: set<nat>, todo: seq<nat>) {
    && InHand(db, m, n, t, turns) && db.nodes[n].thread == Some(t)
    && db.nodes[n].turns < |turns| && n !in todo && AllBehind(db, m, todo)
  }

  ghost predicate PcTrue(db: Tables, pc: Pc) {
    match pc
    case Stale(m, todo) => AllBehind(db, m, todo)
    case RowWritten(isNew, m, n, t, turns, todo) =>
      if isNew then InHand(db, m, n, t, turns) && db.nodes[n].thread.None? && db.nodes[n].raws == {}
      else Refreshing(db, m, n, t, turns, todo)
    case EdgesDropped(m, n, t, turns, todo) => Refreshing(db, m, n, t, turns, todo) && db.nodes[n].raws == {}
    case MetaWritten(isNew, m, n, left, todo) =>
      && IsSession(db, m, n) && left <= Turns(db, m, db.nodes[n].thread.value)
      && (!isNew ==> n !in todo && AllBehind(db, m, todo))
    case SoloInserted(_, n, i, _) =>
      n in db.nodes && IsStandalone(db.raw, i) && db.nodes[n] == SoloNode(db.raw, i).(raws := {})
    case _ => true
  }

  ghost predicate Safe(w: World) {
    Inv(w) && AllCurrent(w.db) && forall p: nat :: PcTrue(w.db, PcOf(w, p))
  }

  /** The action supersedes no turn of a conversation. */
  ghost predicate SparesTurns(db: Tables, a: Action) {
    a.NewRecord? && a.claim.Some? && a.claim.value < |db.raw| ==>
      var r := db.raw[a.claim.value]; r.rtype != Conversation || r.thread.None?
  }

  // ---------------------------------------------------------------------------
  // Arrivals
  // ---------------------------------------------------------------------------

  ghost predicate Grown(db: Tables, db': Tables) {
    && |db.raw| <= |db'.raw| && db'.raw[..|db.raw|] == db.raw && db'.nodes == db.nodes
    && forall m: Mode, t: nat :: Turns(db, m, t) <= Turns(db', m, t)
  }

  lemma ArrivalGrows(db: Tables, row: Row, claim: Option<nat>)
    requires claim.Some? ==> claim.value < |db.raw|
    requires SparesTurns(db, NewRecord(row, claim))
    ensures Grown(db, Arrived(db, row, claim))
  {
    var db' := Arrived(db, row, claim);
    forall m: Mode, t: nat, i | i in Turns(db, m, t)
      ensures i in Turns(db', m, t)
    {
      assert db'.raw[i] == db.raw[i];
    }
  }

  lemma TellsLater(db: Tables, db': Tables, node: Node, turns: set<nat>, t: nat)
    requires Grown(db, db') && Tells(db.raw, node, turns, t) && turns <= Turns(db, node.mode, t)
    ensures Tells(db'.raw, node, turns, t)
  {
    assert db'.raw == db.raw + db'.raw[|db.raw|..];
    SessionNodeStable(db.raw, db'.raw[|db.raw|..], turns, node.mode, t);
  }

  lemma GrownKeepsCurrent(db: Tables, db': Tables, node: Node)
    requires Grown(db, db') && Current(db, node)
    ensures Current(db', node)
  {
    match node.thread {
      case Some(t) =>
        var before, after := Turns(db, node.mode, t), Turns(db', node.mode, t);
        SubsetSizes(before, after);
        if node.turns == |after| {
          TellsLater(db, db', node, before, t);
        }
      case None =>
        if i: nat :| IsStandalone(db.raw, i) && node == SoloNode(db.raw, i) {
          assert db'.raw[i] == db'.raw[..|db.raw|][i];
          assert IsStandalone(db'.raw, i) && node == SoloNode(db'.raw, i);
        }
    }
  }

  lemma GrownKeepsBehind(db: Tables, db': Tables, m: Mode, todo: seq<nat>)
    requires Grown(db, db') && AllBehind(db, m, todo)
    ensures AllBehind(db', m, todo)
  {
    forall k | 0 <= k < |todo|
      ensures Behind(db', m, todo[k])
    {
      assert Behind(db, m, todo[k]);
      var t := db.nodes[todo[k]].thread.value;
      SubsetSizes(Turns(db, m, t), Turns(db', m, t));
    }
  }

  lemma GrownKeepsPcTrue(db: Tables, db': Tables, pc: Pc)
    requires Grown(db, db') && PcTrue(db, pc)
    ensures PcTrue(db', pc)
  {
    match pc {
      case Stale(m, todo) => GrownKeepsBehind(db, db', m, todo);
      case RowWritten(isNew, m, n, t, turns, todo) =>
        TellsLater(db, db', db.nodes[n], turns, t);
        if !isNew { GrownKeepsBehind(db, db', m, todo); }
      case EdgesDropped(m, n, t, turns, todo) =>
        TellsLater(db, db', db.nodes[n], turns, t);
        GrownKeepsBehind(db, db', m, todo);
      case MetaWritten(isNew, m, n, left, todo) =>
        if !isNew { GrownKeepsBehind(db, db', m, todo); }
      case SoloInserted(_, n, i, _) =>
        assert db'.raw[i] == db'.raw[..|db.raw|][i];
      case _ =>
    }
  }

  lemma ArrivalKeepsSafe(w: World, a: Action)
    requires Safe(w) && Enabled(w, a) && a.NewRecord? && SparesTurns(w.db, a)
    ensures Safe(After(w, a))
  {
    var w' := After(w, a);
    ActionKeepsInv(w, a);
    ArrivalGrows(w.db, a.row, a.claim);
    forall n | n in w'.db.nodes
      ensures Current(w'.db, w'.db.nodes[n])
    {
      GrownKeepsCurrent(w.db, w'.db, w.db.nodes[n]);
    }
    forall p: nat
      ensures PcTrue(w'.db, PcOf(w', p))
    {
      assert PcOf(w', p) == PcOf(w, p);
      GrownKeepsPcTrue(w.db, w'.db, PcOf(w, p));
    }
  }

  // ---------------------------------------------------------------------------
  // Statements of a pass
  // ---------------------------------------------------------------------------

  /** The tables differ in at most the node `n`. */
  ghost predicate OneNode(db: Tables, db': Tables, n: nat) {
    && db'.raw == db.raw && db'.gone == db.gone && n in db'.nodes
    && db'.nodes == db.nodes[n := db'.nodes[n]]
  }

  lemma OneNodeKeepsCurrent(db: Tables, db': Tables, n: nat)
    requires AllCurrent(db) && OneNode(db, db', n) && Current(db, db'.nodes[n])
    ensures AllCurrent(db')
  {
    forall x | x in db'.nodes
      ensures Current(db', db'.nodes[x])
    {
      var node := db'.nodes[x];
      assert Current(db, node);
      if node.thread.Some? { TurnsReadRaw(db, db', node.mode, node.thread.value); }
    }
  }

  lemma OneNodeKeepsBehind(db: Tables, db': Tables, n: nat, m: Mode, todo: seq<nat>)
    requires OneNode(db, db', n) && AllBehind(db, m, todo) && n !in todo
    ensures AllBehind(db', m, todo)
  {
    forall k | 0 <= k < |todo|
      ensures Behind(db', m, todo[k])
    {
      assert Behind(db, m, todo[k]) && db'.nodes[todo[k]] == db.nodes[todo[k]];
      TurnsReadRaw(db, db', m, db.nodes[todo[k]].thread.value);
    }
  }

  lemma HolderStaysSafe(w: World, w': World, p: nat)
    requires Safe(w) && Inv(w') && w.lock == Some(p) && w'.lock == Some(p)
    requires AllCurrent(w'.db) && PcTrue(w'.db, PcOf(w', p))
    ensures Safe(w')
  {
    forall q: nat
      ensures PcTrue(w'.db, PcOf(w', q))
    {
      if q != p { assert PcOf(w', q).Idle?; }
    }
  }

  lemma WriteRowKeepsSafe(w: World, p: nat)
    requires Safe(w) && Enabled(w, WriteRow(p))
    ensures Safe(After(w, WriteRow(p)))
  {
    var w', pc := After(w, WriteRow(p)), PcOf(w, p);
    ActionKeepsInv(w, WriteRow(p));
    assert PcOk(w.db, pc) && PcTrue(w.db, pc);
    if pc.Sessions? {
      var t := pc.todo[0];
      if Turns(w.db, pc.m, t) != {} {
        TurnsReadRaw(w.db, w'.db, pc.m, t);
        OneNodeKeepsCurrent(w.db, w'.db, w.db.next);
      }
    } else {
      RefreshRow(w, p);
    }
    HolderStaysSafe(w, w', p);
  }

  lemma RefreshRow(w: World, p: nat)
    requires Safe(w) && Enabled(w, WriteRow(p)) && PcOf(w, p).Stale?
    ensures AllCurrent(After(w, WriteRow(p)).db) && PcTrue(After(w, WriteRow(p)).db, PcOf(After(w, WriteRow(p)), p))
  {
    var w', pc := After(w, WriteRow(p)), PcOf(w, p);
    assert PcTrue(w.db, pc);
    var n, rest := pc.todo[0], pc.todo[1..];
    assert Behind(w.db, pc.m, n);
    var t := w.db.nodes[n].thread.value;
    assert n !in rest;
    assert AllBehind(w.db, pc.m, rest);
    if Turns(w.db, pc.m, t) != {} {
      TurnsReadRaw(w.db, w'.db, pc.m, t);
      assert Current(w.db, w.db.nodes[n]);
      assert Current(w.db, w'.db.nodes[n]);
      OneNodeKeepsCurrent(w.db, w'.db, n);
      OneNodeKeepsBehind(w.db, w'.db, n, pc.m, rest);
    }
  }

  lemma EdgesKeepSafe(w: World, a: Action)
    requires Safe(w) && Enabled(w, a) && (a.DropEdges? || a.LinkTurn?)
    ensures Safe(After(w, a))
  {
    var w', pc := After(w, a), PcOf(w, a.p);
    ActionKeepsInv(w, a);
    assert PcTrue(w.db, pc);
    var t := w.db.nodes[pc.n].thread.value;
    assert Current(w.db, w.db.nodes[pc.n]);
    TurnsReadRaw(w.db, w'.db, pc.m, t);
    assert Current(w.db, w'.db.nodes[pc.n]);
    OneNodeKeepsCurrent(w.db, w'.db, pc.n);
    if a.DropEdges? || !pc.isNew {
      OneNodeKeepsBehind(w.db, w'.db, pc.n, pc.m, pc.todo);
    }
    HolderStaysSafe(w, w', a.p);
  }

  lemma MetaKeepsSafe(w: World, p: nat)
    requires Safe(w) && Enabled(w, WriteMeta(p))
    ensures Safe(After(w, WriteMeta(p)))
  {
    var w', pc := After(w, WriteMeta(p)), PcOf(w, p);
    ActionKeepsInv(w, WriteMeta(p));
    assert PcTrue(w.db, pc);
    TurnsReadRaw(w.db, w'.db, pc.m, pc.t);
    SubsetSizes(pc.turns, Turns(w.db, pc.m, pc.t));
    assert Current(w.db, w'.db.nodes[pc.n]);
    OneNodeKeepsCurrent(w.db, w'.db, pc.n);
    if pc.EdgesDropped? {
      OneNodeKeepsBehind(w.db, w'.db, pc.n, pc.m, pc.todo);
    }
    HolderStaysSafe(w, w', p);
  }

  lemma SoloKeepsSafe(w: World, a: Action)
    requires Safe(w) && Enabled(w, a) && (a.InsertSolo? || a.LinkSolo?)
    ensures Safe(After(w, a))
  {
    var w', pc := After(w, a), PcOf(w, a.p);
    ActionKeepsInv(w, a);
    assert PcOk(w.db, pc) && PcTrue(w.db, pc);
    if a.InsertSolo? {
      OneNodeKeepsCurrent(w.db, w'.db, w.db.next);
    } else {
      assert w'.db.nodes[pc.n] == SoloNode(w.db.raw, pc.i);
      OneNodeKeepsCurrent(w.db, w'.db, pc.n);
    }
    HolderStaysSafe(w, w', a.p);
  }

  /** A stale episode counts fewer turns, never more. */
  lemma ListedIsBehind(db: Tables, m: Mode, cap: nat, q: seq<nat>)
    requires AllCurrent(db) && Batch(StaleEpisodes(db, m), OwnOrder, cap, q)
    ensures AllBehind(db, m, q)
  {
    forall k | 0 <= k < |q|
      ensures Behind(db, m, q[k])
    {
      assert IsStale(db, m, q[k]) && Current(db, db.nodes[q[k]]);
    }
  }

  lemma PassingKeepsSafe(w: World, a: Action)
    requires Safe(w) && Enabled(w, a)
    requires a.TryLock? || a.Stop? || a.WipeAll? || a.ListSessions? || a.ListStale? || a.ListSolos? || a.EndList? || a.EndEpisode?
    ensures Safe(After(w, a))
  {
    var w' := After(w, a);
    ActionKeepsInv(w, a);
    match a {
      case ListStale(p, m, cap, q) => ListedIsBehind(w.db, m, cap, q);
      case _ =>
    }
    forall q: nat
      ensures PcTrue(w'.db, PcOf(w', q))
    {
      assert PcTrue(w.db, PcOf(w, q));
      if q != a.p { assert PcOf(w', q) == PcOf(w, q); }
    }
  }

  lemma ActionKeepsSafe(w: World, a: Action)
    requires Safe(w) && Enabled(w, a) && SparesTurns(w.db, a)
    ensures Safe(After(w, a))
  {
    match a {
      case NewRecord(_, _) => ArrivalKeepsSafe(w, a);
      case WriteRow(p) => WriteRowKeepsSafe(w, p);
      case WriteMeta(p) => MetaKeepsSafe(w, p);
      case DropEdges(_) => EdgesKeepSafe(w, a);
      case LinkTurn(_, _) => EdgesKeepSafe(w, a);
      case InsertSolo(_) => SoloKeepsSafe(w, a);
      case LinkSolo(_) => SoloKeepsSafe(w, a);
      case _ => PassingKeepsSafe(w, a);
    }
  }

  lemma {:induction false} ScheduleKeepsSafe(ws: seq<World>, acts: seq<Action>, k: nat)
    requires Schedule(ws, acts) && k <= |acts|
    requires forall j :: 0 <= j < |acts| ==> SparesTurns(ws[j].db, acts[j])
    ensures Safe(ws[k])
  {
    if k > 0 {
      ScheduleKeepsSafe(ws, acts, k - 1);
      assert Enabled(ws[k - 1], acts[k - 1]);
      ActionKeepsSafe(ws[k - 1], acts[k - 1]);
    }
  }

  /** Whatever interleaves and wherever passes die, as long as no conversation turn is
      superseded: an episode no pass would list as stale has exactly the transcript and
      time a rebuild gives it, and its edges lead to that session's turns only; and a
      threadless node with an edge is the episode of that one row. */
  lemma CrashLosesOnlyLineage(ws: seq<World>, acts: seq<Action>, k: nat, n: nat)
    requires Schedule(ws, acts) && k <= |acts|
    requires forall j :: 0 <= j < |acts| ==> SparesTurns(ws[j].db, acts[j])
    requires n in ws[k].db.nodes
    ensures var db := ws[k].db; var node := db.nodes[n];
            match node.thread
            case Some(t) =>
              var full := SessionNode(db.raw, Turns(db, node.mode, t), node.mode, t);
              node.raws <= full.raws && (!IsStale(db, node.mode, n) ==> node == full.(raws := node.raws))
            case None => node.raws == {} || exists i: nat :: IsStandalone(db.raw, i) && node == SoloNode(db.raw, i)
  {
    ScheduleKeepsSafe(ws, acts, k);
    assert Current(ws[k].db, ws[k].db.nodes[n]);
  }

  // ---------------------------------------------------------------------------
  // ... and no later pass restores the lineage
  // ---------------------------------------------------------------------------

  /** The episode counts as up to date but does not lead to all its turns. */
  ghost predicate Torn(db: Tables, n: nat) {
    && n in db.nodes && n < db.next && db.nodes[n].thread.Some?
    && var turns := Turns(db, db.nodes[n].mode, db.nodes[n].thread.value);
    && db.nodes[n].turns == |turns| && !(turns <= db.nodes[n].raws)
  }

  /** A pass that dies after writing an episode's meta, before linking its last turn. */
  lemma StopTears(w: World, p: nat, i: nat)
    requires Safe(w) && PcOf(w, p).MetaWritten? && i in PcOf(w, p).left && i !in w.db.nodes[PcOf(w, p).n].raws
    requires !IsStale(w.db, PcOf(w, p).m, PcOf(w, p).n)
    ensures Enabled(w, Stop(p)) && Torn(After(w, Stop(p)).db, PcOf(w, p).n)
  {
    assert PcTrue(w.db, PcOf(w, p));
  }

  lemma {:induction false} WithNodesKeepsNode(db: Tables, nodes: seq<Node>, n: nat)
    requires n in db.nodes && n < db.next
    ensures var r := WithNodes(db, nodes); n in r.nodes && r.nodes[n] == db.nodes[n] && n < r.next
  {
    if nodes != [] { WithNodesKeepsNode(db, nodes[..|nodes| - 1], n); }
  }

  lemma TornSurvivesPass(db: Tables, e: Event, db': Tables, n: nat)
    requires Step(db, e, db') && e.Promote? && Torn(db, n)
    ensures Torn(db', n) && db'.nodes[n] == db.nodes[n]
  {
    var p, node := e.pass, db.nodes[n];
    var one := WithNodes(db, SessionNodes(db, p.mode, p.sessions));
    var two := WithRefreshed(one, p.mode, p.stale);
    WithNodesKeepsNode(db, SessionNodes(db, p.mode, p.sessions), n);
    TurnsReadRaw(db, one, node.mode, node.thread.value);
    assert n !in StaleEpisodes(one, p.mode);
    WithNodesKeepsNode(two, SoloNodes(two, p.solos), n);
    TurnsReadRaw(db, db', node.mode, node.thread.value);
  }

  lemma TornSurvivesAt(dbs: seq<Tables>, es: seq<Event>, k: nat, n: nat)
    requires Run(dbs, es) && k < |es| && es[k].Promote? && Torn(dbs[k], n)
    ensures Torn(dbs[k + 1], n) && dbs[k + 1].nodes[n] == dbs[k].nodes[n]
  {
    StepOf(dbs, es, k);
    TornSurvivesPass(dbs[k], es[k], dbs[k + 1], n);
  }

  /** No number of passes, of any register and cap, relinks it. */
  lemma {:induction false} TornStaysTorn(dbs: seq<Tables>, es: seq<Event>, n: nat, k: nat)
    requires Run(dbs, es) && k <= |es| && Torn(dbs[0], n) && forall e :: e in es ==> e.Promote?
    ensures Torn(dbs[k], n) && dbs[k].nodes[n] == dbs[0].nodes[n]
  {
    if k > 0 {
      TornStaysTorn(dbs, es, n, k - 1);
      assert es[k - 1] in es;
      TornSurvivesAt(dbs, es, k - 1, n);
    }
  }

  /** A wipe heals every reachable state: passes run to quiescence from it derive exactly
      the episodes raw derives. */
  lemma WipeHeals(ws: seq<World>, acts: seq<Action>, k: nat, redo: seq<Tables>, passes: seq<Event>)
    requires Schedule(ws, acts) && k <= |acts|
    requires Run(redo, passes) && redo[0] == Wiped(ws[k].db) && forall e :: e in passes ==> e.Promote?
    requires Quiescent(redo[|passes|])
    ensures Agrees(redo[|passes|])
    ensures redo[|passes|].raw == ws[k].db.raw && redo[|passes|].gone == ws[k].db.gone
  {
    ScheduleKeepsInv(ws, acts, k);
    PassesKeepSound(redo, passes);
    PassesKeepRaw(redo, passes, |passes|);
    AgreesIffCoverageIsActive(redo[|passes|]);
  }

  // ---------------------------------------------------------------------------
  // A torn episode is reachable
  // ---------------------------------------------------------------------------

  const HELLO := Row(Conversation, Some(0), None, "hello", 0, 0, "user:u")

  /** A record arrives, a pass lists its session, writes the row and the meta, and dies. */
  const CRASH: seq<Action> := [
    NewRecord(HELLO, None), TryLock(0), ListSessions(0, None, 1, [0]), WriteRow(0), WriteMeta(0), Stop(0)]

  const ONE_ROW := Tables([HELLO], {}, map[], 0)
  const BARE := BareNode([HELLO], {0}, None, 0)

  function Held(nodes: map<nat, Node>, next: nat, pc: Pc): World {
    World(Tables([HELLO], {}, nodes, next), Some(0), map[0 := pc])
  }

  /** The worlds that schedule goes through. */
  function CrashWorld(k: nat): World {
    match k
    case 0 => START
    case 1 => World(ONE_ROW, None, map[])
    case 2 => Held(map[], 0, Holding)
    case 3 => Held(map[], 0, Sessions(None, [0]))
    case 4 => Held(map[0 := BARE], 1, RowWritten(true, None, 0, 0, {0}, []))
    case 5 => Held(map[0 := BARE.(thread := Some(0), turns := 1)], 1, MetaWritten(true, None, 0, {0}, []))
    case _ => World(Tables([HELLO], {}, map[0 := BARE.(thread := Some(0), turns := 1)], 1), None, map[0 := Idle])
  }

  lemma HelloTurns(db: Tables)
    requires db.raw == [HELLO] && db.gone == {}
    ensures Turns(db, None, 0) == {0}
  {
    assert 0 in Turns(db, None, 0);
  }

  lemma HelloIsPending()
    ensures Batch(PendingSessions(ONE_ROW, None), OwnOrder, 1, [0])
  {
    assert IsPendingTurn(ONE_ROW, None, 0);
    assert 0 in PendingSessions(ONE_ROW, None);
    assert PendingSessions(ONE_ROW, None) == {0};
  }

  ghost predicate Moves(w: World, a: Action, w': World) {
    Enabled(w, a) && w' == After(w, a)
  }

  lemma CrashListing()
    ensures Moves(CrashWorld(0), NewRecord(HELLO, None), CrashWorld(1)) && Moves(CrashWorld(1), TryLock(0), CrashWorld(2))
    ensures Moves(CrashWorld(2), ListSessions(0, None, 1, [0]), CrashWorld(3))
  {
    HelloIsPending();
  }

  lemma CrashWriting()
    ensures Moves(CrashWorld(3), WriteRow(0), CrashWorld(4))
  {
    HelloTurns(CrashWorld(3).db);
    var w := CrashWorld(3);
    assert Turns(w.db, None, 0) != {};
    assert PcOf(w, 0).todo[1..] == [];
    var r := WriteRowAfter(w, 0);
    assert r.db == CrashWorld(4).db;
    assert r.passes == CrashWorld(4).passes;
  }

  lemma CrashDying()
    ensures Moves(CrashWorld(4), WriteMeta(0), CrashWorld(5)) && Moves(CrashWorld(5), Stop(0), CrashWorld(6))
  {
  }

  lemma CrashStep(k: nat)
    requires k < 6
    ensures Moves(CrashWorld(k), CRASH[k], CrashWorld(k + 1))
  {
    CrashListing();
    CrashWriting();
    CrashDying();
  }

  lemma TearIsReachable()
    ensures exists ws: seq<World> :: Schedule(ws, CRASH) && Torn(ws[6].db, 0) && ws[6].lock.None?
  {
    var ws := seq(7, k requires 0 <= k < 7 => CrashWorld(k));
    forall k | 0 <= k < |CRASH|
      ensures Enabled(ws[k], CRASH[k]) && ws[k + 1] == After(ws[k], CRASH[k])
    {
      CrashStep(k);
    }
    HelloTurns(ws[6].db);
    assert Schedule(ws, CRASH);
  }
}
