/** Incremental equals rebuild when passes die: exactly which reachable states, once nothing
    is pending, hold the episodes a wipe and re-promotion derives - whatever arrived, and
    wherever passes died. */
module Recovery {
  import opened Prelude
  import opened Episodes
  import opened Rebuildable
  import opened SingleFlight
  import opened Crashes

  // ---------------------------------------------------------------------------
  // Edges stay in the session
  // ---------------------------------------------------------------------------

  ghost predicate TurnsOf(raw: seq<Row>, m: Mode, t: nat, ids: set<nat>) {
    forall i :: i in ids ==> IsTurn(raw, m, t, i)
  }

  ghost predicate IsSolo(raw: seq<Row>, node: Node) {
    exists i: nat :: IsStandalone(raw, i) && node == SoloNode(raw, i)
  }

  /** The edges of an episode lead to turns of its session, and a threadless node with an
      edge is the episode of that one row. */
  ghost predicate OwnEdges(raw: seq<Row>, node: Node) {
    match node.thread
    case Some(t) => TurnsOf(raw, node.mode, t, node.raws)
    case None => node.raws == {} || IsSolo(raw, node)
  }

  /** ... and so will the edges the pass has in hand. */
  ghost predicate PcOwn(db: Tables, pc: Pc) {
    match pc
    case RowWritten(isNew, m, n, t, turns, _) =>
      TurnsOf(db.raw, m, t, turns) && (isNew ==> n in db.nodes && db.nodes[n].raws == {})
    case EdgesDropped(m, n, t, turns, _) => TurnsOf(db.raw, m, t, turns) && n in db.nodes && db.nodes[n].raws == {}
    case MetaWritten(_, m, n, left, _) => IsSession(db, m, n) && TurnsOf(db.raw, m, db.nodes[n].thread.value, left)
    case SoloInserted(_, n, i, _) =>
      n in db.nodes && IsStandalone(db.raw, i) && db.nodes[n] == SoloNode(db.raw, i).(raws := {})
    case _ => true
  }

  ghost predicate AllOwn(db: Tables) {
    forall n :: n in db.nodes ==> OwnEdges(db.raw, db.nodes[n])
  }

  ghost predicate Owned(w: World) {
    Inv(w) && AllOwn(w.db) && forall p: nat :: PcOwn(w.db, PcOf(w, p))
  }

  lemma SoloLater(raw: seq<Row>, more: seq<Row>, node: Node)
    requires IsSolo(raw, node)
    ensures IsSolo(raw + more, node)
  {
    var i: nat :| IsStandalone(raw, i) && node == SoloNode(raw, i);
    assert IsStandalone(raw + more, i) && node == SoloNode(raw + more, i);
  }

  lemma OwnLater(raw: seq<Row>, more: seq<Row>, node: Node)
    requires OwnEdges(raw, node)
    ensures OwnEdges(raw + more, node)
  {
    if node.thread.None? && node.raws != {} { SoloLater(raw, more, node); }
  }

  lemma ArrivalKeepsOwned(w: World, a: Action)
    requires Owned(w) && Enabled(w, a) && a.NewRecord?
    ensures Owned(After(w, a))
  {
    var w' := After(w, a);
    ActionKeepsInv(w, a);
    forall n | n in w'.db.nodes
      ensures OwnEdges(w'.db.raw, w'.db.nodes[n])
    {
      OwnLater(w.db.raw, [a.row], w.db.nodes[n]);
    }
    forall p: nat
      ensures PcOwn(w'.db, PcOf(w', p))
    {
      assert PcOf(w', p) == PcOf(w, p) && PcOwn(w.db, PcOf(w, p));
    }
  }

  lemma HolderStaysOwned(w: World, w': World, p: nat)
    requires Owned(w) && Inv(w') && w.lock == Some(p) && w'.lock == Some(p)
    requires AllOwn(w'.db) && PcOwn(w'.db, PcOf(w', p))
    ensures Owned(w')
  {
    forall q: nat
      ensures PcOwn(w'.db, PcOf(w', q))
    {
      if q != p { assert PcOf(w', q).Idle?; }
    }
  }

  /** Every statement that writes a node writes it alone. */
  lemma WriteRowKeepsOwned(w: World, p: nat)
    requires Owned(w) && Enabled(w, WriteRow(p))
    ensures Owned(After(w, WriteRow(p)))
  {
    ActionKeepsInv(w, WriteRow(p));
    assert PcOwn(w.db, PcOf(w, p)) && PcOk(w.db, PcOf(w, p));
    HolderStaysOwned(w, After(w, WriteRow(p)), p);
  }

  lemma EdgesKeepOwned(w: World, a: Action)
    requires Owned(w) && Enabled(w, a) && (a.DropEdges? || a.WriteMeta? || a.LinkTurn?)
    ensures Owned(After(w, a))
  {
    ActionKeepsInv(w, a);
    assert PcOwn(w.db, PcOf(w, a.p)) && PcOk(w.db, PcOf(w, a.p));
    HolderStaysOwned(w, After(w, a), a.p);
  }

  lemma SoloKeepsOwned(w: World, a: Action)
    requires Owned(w) && Enabled(w, a) && (a.InsertSolo? || a.LinkSolo?)
    ensures Owned(After(w, a))
  {
    ActionKeepsInv(w, a);
    assert PcOwn(w.db, PcOf(w, a.p)) && PcOk(w.db, PcOf(w, a.p));
    if a.LinkSolo? { LinkSoloKeepsOwn(w, a.p); }
    HolderStaysOwned(w, After(w, a), a.p);
  }

  lemma LinkSoloKeepsOwn(w: World, p: nat)
    requires Owned(w) && Enabled(w, LinkSolo(p))
    ensures AllOwn(After(w, LinkSolo(p)).db)
  {
    var pc := PcOf(w, p);
    assert PcOwn(w.db, pc);
    assert After(w, LinkSolo(p)).db.nodes[pc.n] == SoloNode(w.db.raw, pc.i);
  }

  lemma PassingKeepsOwned(w: World, a: Action)
    requires Owned(w) && Enabled(w, a)
    requires a.TryLock? || a.Stop? || a.WipeAll? || a.ListSessions? || a.ListStale? || a.ListSolos? || a.EndList? || a.EndEpisode?
    ensures Owned(After(w, a))
  {
    var w' := After(w, a);
    ActionKeepsInv(w, a);
    forall q: nat
      ensures PcOwn(w'.db, PcOf(w', q))
    {
      assert PcOwn(w.db, PcOf(w, q));
      if q != a.p { assert PcOf(w', q) == PcOf(w, q); }
    }
  }

  lemma ActionKeepsOwned(w: World, a: Action)
    requires Owned(w) && Enabled(w, a)
    ensures Owned(After(w, a))
  {
    if a.NewRecord? {
      ArrivalKeepsOwned(w, a);
    } else if a.WriteRow? {
      WriteRowKeepsOwned(w, a.p);
    } else if a.DropEdges? || a.WriteMeta? || a.LinkTurn? {
      EdgesKeepOwned(w, a);
    } else if a.InsertSolo? || a.LinkSolo? {
      SoloKeepsOwned(w, a);
    } else {
      PassingKeepsOwned(w, a);
    }
  }

  lemma {:induction false} ScheduleKeepsOwned(ws: seq<World>, acts: seq<Action>, k: nat)
    requires Schedule(ws, acts) && k <= |acts|
    ensures Owned(ws[k])
  {
    if k > 0 {
      ScheduleKeepsOwned(ws, acts, k - 1);
      assert Enabled(ws[k - 1], acts[k - 1]);
      ActionKeepsOwned(ws[k - 1], acts[k - 1]);
    }
  }

  // ---------------------------------------------------------------------------
  // What a quiescent world has to look like
  // ---------------------------------------------------------------------------

  /** The episode covers something, misses no active turn of its session, and tells what it
      covers. */
  ghost predicate IsWhole(db: Tables, node: Node) {
    && node.raws != {}
    && (node.thread.Some? ==>
          var t := node.thread.value;
          Turns(db, node.mode, t) <= node.raws && Tells(db.raw, node, node.raws, t))
  }

  ghost predicate Intact(db: Tables) {
    CoverageIsActive(db) && forall n :: n in db.nodes ==> IsWhole(db, db.nodes[n])
  }

  lemma IntactNodeIsDerived(db: Tables, n: nat)
    requires AllOwn(db) && NothingStale(db) && Intact(db) && n in db.nodes
    ensures IsDerived(db, db.nodes[n])
  {
    var node := db.nodes[n];
    assert OwnEdges(db.raw, node) && IsWhole(db, node);
    if node.thread.Some? {
      var turns := Turns(db, node.mode, node.thread.value);
      assert node.raws == turns;
      assert turns == {} || node.turns == |turns|;
    } else {
      var i: nat :| IsStandalone(db.raw, i) && node == SoloNode(db.raw, i);
      assert i in node.raws;
    }
  }

  lemma DerivedNodeIsWhole(db: Tables, node: Node)
    requires IsDerived(db, node)
    ensures IsWhole(db, node) && forall i :: i in node.raws ==> i !in db.gone
  {
    forall i | i in node.raws
      ensures i !in db.gone
    {
      DerivedCoversActive(db, node, i);
    }
    if node.thread.None? {
      var i: nat :| IsStandalone(db.raw, i) && node == SoloNode(db.raw, i);
      assert i in SoloNode(db.raw, i).raws;
    }
  }

  lemma DerivedIsThere(db: Tables, node: Node)
    requires AllOwn(db) && Quiescent(db) && Intact(db) && IsDerived(db, node)
    ensures HasNode(db, node)
  {
    match node.thread {
      case Some(t) =>
        var i :| i in Turns(db, node.mode, t);
        assert PendingSessions(db, node.mode) == {};
        NoPendingTurn(db, node.mode, i);
        var n :| n in db.nodes && db.nodes[n].mode == node.mode && db.nodes[n].thread == Some(t);
        IntactNodeIsDerived(db, n);
      case None =>
        var i: nat :| IsStandalone(db.raw, i) && i !in db.gone && node == SoloNode(db.raw, i);
        assert PendingSolos(db, db.raw[i].mode) == {};
        assert i !in PendingSolos(db, db.raw[i].mode);
        var n :| n in db.nodes && i in db.nodes[n].raws;
        IntactNodeIsDerived(db, n);
        DerivedCoverIsSolo(db, db.nodes[n], i);
    }
  }

  lemma DerivedCoverIsSolo(db: Tables, node: Node, i: nat)
    requires IsDerived(db, node) && IsStandalone(db.raw, i) && i in node.raws
    ensures node == SoloNode(db.raw, i)
  {
  }

  lemma AgreesIffIntact(db: Tables)
    requires AllOwn(db) && Quiescent(db)
    ensures Agrees(db) <==> Intact(db)
  {
    if Intact(db) {
      forall node
        ensures HasNode(db, node) <==> IsDerived(db, node)
      {
        if HasNode(db, node) {
          var n :| n in db.nodes && db.nodes[n] == node;
          IntactNodeIsDerived(db, n);
        }
        if IsDerived(db, node) {
          DerivedIsThere(db, node);
        }
      }
    }
    if Agrees(db) {
      forall n | n in db.nodes
        ensures IsWhole(db, db.nodes[n]) && forall i :: i in db.nodes[n].raws ==> i !in db.gone
      {
        assert HasNode(db, db.nodes[n]);
        DerivedNodeIsWhole(db, db.nodes[n]);
      }
    }
  }

  /** For every schedule - any arrivals, any interleaving, passes dying anywhere: a quiescent
      world holds what raw derives if and only if no covered row was superseded, and every
      episode covers something, misses no active turn of its session and tells what it
      covers. */
  lemma CrashedAgreesIff(ws: seq<World>, acts: seq<Action>, k: nat)
    requires Schedule(ws, acts) && k <= |acts| && Quiescent(ws[k].db)
    ensures Agrees(ws[k].db) <==> Intact(ws[k].db)
  {
    ScheduleKeepsOwned(ws, acts, k);
    AgreesIffIntact(ws[k].db);
  }

  /** ... which is the condition under which a wipe and passes to quiescence would change
      nothing. */
  lemma CrashedEqualsRebuildIff(ws: seq<World>, acts: seq<Action>, k: nat, redo: seq<Tables>, passes: seq<Event>)
    requires Schedule(ws, acts) && k <= |acts| && Quiescent(ws[k].db)
    requires Run(redo, passes) && redo[0] == Wiped(ws[k].db) && forall e :: e in passes ==> e.Promote?
    requires Quiescent(redo[|passes|])
    ensures (forall node :: HasNode(ws[k].db, node) <==> HasNode(redo[|passes|], node)) <==> Intact(ws[k].db)
  {
    var db, again := ws[k].db, redo[|passes|];
    CrashedAgreesIff(ws, acts, k);
    WipeHeals(ws, acts, k, redo, passes);
    forall node
      ensures HasNode(again, node) <==> IsDerived(db, node)
    {
      SameDerived(db, again, node);
    }
  }

  // ---------------------------------------------------------------------------
  // Passes that only stop between episodes
  // ---------------------------------------------------------------------------

  /** The node the pass has begun and not finished. */
  function Hand(pc: Pc): Option<nat> {
    if pc.RowWritten? || pc.EdgesDropped? || pc.MetaWritten? || pc.SoloInserted? then Some(pc.n) else None
  }

  /** Only the lock holder works on anything. */
  function HandOf(w: World): Option<nat> {
    if w.lock.Some? then Hand(PcOf(w, w.lock.value)) else None
  }

  /** The pass does not die over an episode. */
  ghost predicate Orderly(w: World, a: Action) {
    a.Stop? ==> Hand(PcOf(w, a.p)).None?
  }

  /** The row the pass wrote tells the turns it has in hand. */
  ghost predicate Begun(db: Tables, m: Mode, n: nat, t: nat, turns: set<nat>) {
    n in db.nodes && db.nodes[n].mode == m && turns != {} && TurnsOf(db.raw, m, t, turns) && Tells(db.raw, db.nodes[n], turns, t)
  }

  /** With the edges still to come the episode is what its turns derive. */
  ghost predicate PcWhole(db: Tables, pc: Pc) {
    match pc
    case RowWritten(_, m, n, t, turns, _) => Begun(db, m, n, t, turns)
    case EdgesDropped(m, n, t, turns, _) => Begun(db, m, n, t, turns)
    case MetaWritten(_, _, n, left, _) =>
      n in db.nodes && Faithful(db.raw, db.nodes[n].(raws := db.nodes[n].raws + left))
    case _ => true
  }

  ghost predicate Finished(w: World) {
    forall n :: n in w.db.nodes ==> HandOf(w) == Some(n) || Faithful(w.db.raw, w.db.nodes[n])
  }

  ghost predicate Whole(w: World) {
    Owned(w) && Finished(w) && (w.lock.Some? ==> PcWhole(w.db, PcOf(w, w.lock.value)))
  }

  lemma TellsStays(raw: seq<Row>, more: seq<Row>, node: Node, turns: set<nat>, t: nat)
    requires Tells(raw, node, turns, t) && TurnsOf(raw, node.mode, t, turns)
    ensures Tells(raw + more, node, turns, t)
  {
    SessionNodeStable(raw, more, turns, node.mode, t);
  }

  lemma PcWholeLater(db: Tables, row: Row, claim: Option<nat>, pc: Pc)
    requires PcWhole(db, pc)
    ensures PcWhole(Arrived(db, row, claim), pc)
  {
    match pc {
      case RowWritten(_, m, n, t, turns, _) => TellsStays(db.raw, [row], db.nodes[n], turns, t);
      case EdgesDropped(m, n, t, turns, _) => TellsStays(db.raw, [row], db.nodes[n], turns, t);
      case MetaWritten(_, _, n, left, _) => FaithfulLater(db.raw, [row], db.nodes[n].(raws := db.nodes[n].raws + left));
      case _ =>
    }
  }

  lemma ArrivalKeepsWhole(w: World, a: Action)
    requires Whole(w) && Enabled(w, a) && a.NewRecord?
    ensures Whole(After(w, a))
  {
    var w' := After(w, a);
    ActionKeepsOwned(w, a);
    forall n | n in w'.db.nodes
      ensures HandOf(w') == Some(n) || Faithful(w'.db.raw, w'.db.nodes[n])
    {
      if HandOf(w) != Some(n) { FaithfulLater(w.db.raw, [a.row], w.db.nodes[n]); }
    }
    if w.lock.Some? { PcWholeLater(w.db, a.row, a.claim, PcOf(w, w.lock.value)); }
  }

  lemma WriteRowKeepsWhole(w: World, p: nat)
    requires Whole(w) && Enabled(w, WriteRow(p))
    ensures Whole(After(w, WriteRow(p)))
  {
    hide Owned, Finished, PcWhole;
    ActionKeepsOwned(w, WriteRow(p));
    RowKeepsFinished(w, p);
    RowIsBegun(w, p);
  }

  lemma RowKeepsFinished(w: World, p: nat)
    requires Whole(w) && Enabled(w, WriteRow(p))
    ensures Finished(After(w, WriteRow(p))) && After(w, WriteRow(p)).lock == Some(p)
  {
    assert w.lock == Some(p);
  }

  lemma RowIsBegun(w: World, p: nat)
    requires Owned(w) && Enabled(w, WriteRow(p))
    ensures PcWhole(After(w, WriteRow(p)).db, PcOf(After(w, WriteRow(p)), p))
  {
    assert PcOk(w.db, PcOf(w, p));
  }

  lemma DropEdgesKeepsWhole(w: World, p: nat)
    requires Whole(w) && Enabled(w, DropEdges(p))
    ensures Whole(After(w, DropEdges(p)))
  {
    ActionKeepsOwned(w, DropEdges(p));
    assert w.lock == Some(p);
  }

  lemma InsertSoloKeepsWhole(w: World, p: nat)
    requires Whole(w) && Enabled(w, InsertSolo(p))
    ensures Whole(After(w, InsertSolo(p)))
  {
    ActionKeepsOwned(w, InsertSolo(p));
    assert w.lock == Some(p);
  }

  lemma WriteMetaKeepsWhole(w: World, p: nat)
    requires Whole(w) && Enabled(w, WriteMeta(p))
    ensures Whole(After(w, WriteMeta(p)))
  {
    ActionKeepsOwned(w, WriteMeta(p));
    assert w.lock == Some(p);
    var pc := PcOf(w, p);
    assert PcOwn(w.db, pc) && Begun(w.db, pc.m, pc.n, pc.t, pc.turns);
    var node := After(w, WriteMeta(p)).db.nodes[pc.n];
    assert node.raws + pc.turns == pc.turns;
    assert node.(raws := pc.turns) == SessionNode(w.db.raw, pc.turns, pc.m, pc.t);
  }

  lemma LinkTurnKeepsWhole(w: World, a: Action)
    requires Whole(w) && Enabled(w, a) && a.LinkTurn?
    ensures Whole(After(w, a))
  {
    ActionKeepsOwned(w, a);
    assert w.lock == Some(a.p);
    var pc := PcOf(w, a.p);
    var raws := w.db.nodes[pc.n].raws;
    assert raws + {a.i} + (pc.left - {a.i}) == raws + pc.left;
  }

  lemma LinkSoloKeepsWhole(w: World, p: nat)
    requires Whole(w) && Enabled(w, LinkSolo(p))
    ensures Whole(After(w, LinkSolo(p)))
  {
    ActionKeepsOwned(w, LinkSolo(p));
    assert w.lock == Some(p);
    var pc := PcOf(w, p);
    assert PcOwn(w.db, pc);
    assert After(w, LinkSolo(p)).db.nodes[pc.n] == SoloNode(w.db.raw, pc.i);
  }

  lemma EndEpisodeKeepsWhole(w: World, p: nat)
    requires Whole(w) && Enabled(w, EndEpisode(p))
    ensures Whole(After(w, EndEpisode(p)))
  {
    ActionKeepsOwned(w, EndEpisode(p));
    assert w.lock == Some(p);
    var node := w.db.nodes[PcOf(w, p).n];
    assert node.raws + {} == node.raws && node.(raws := node.raws) == node;
  }

  lemma PassingKeepsWhole(w: World, a: Action)
    requires Whole(w) && Enabled(w, a) && Orderly(w, a)
    requires a.TryLock? || a.Stop? || a.WipeAll? || a.ListSessions? || a.ListStale? || a.ListSolos? || a.EndList?
    ensures Whole(After(w, a))
  {
    ActionKeepsOwned(w, a);
    assert !a.TryLock? ==> w.lock == Some(a.p);
  }

  lemma ActionKeepsWhole(w: World, a: Action)
    requires Whole(w) && Enabled(w, a) && Orderly(w, a)
    ensures Whole(After(w, a))
  {
    match a {
      case NewRecord(_, _) => ArrivalKeepsWhole(w, a);
      case WriteRow(p) => WriteRowKeepsWhole(w, p);
      case DropEdges(p) => DropEdgesKeepsWhole(w, p);
      case InsertSolo(p) => InsertSoloKeepsWhole(w, p);
      case WriteMeta(p) => WriteMetaKeepsWhole(w, p);
      case LinkTurn(_, _) => LinkTurnKeepsWhole(w, a);
      case LinkSolo(p) => LinkSoloKeepsWhole(w, p);
      case EndEpisode(p) => EndEpisodeKeepsWhole(w, p);
      case _ => PassingKeepsWhole(w, a);
    }
  }

  lemma {:induction false} ScheduleKeepsWhole(ws: seq<World>, acts: seq<Action>, k: nat)
    requires Schedule(ws, acts) && k <= |acts|
    requires forall j :: 0 <= j < |acts| ==> Orderly(ws[j], acts[j])
    ensures Whole(ws[k])
  {
    if k > 0 {
      ScheduleKeepsWhole(ws, acts, k - 1);
      assert Enabled(ws[k - 1], acts[k - 1]) && Orderly(ws[k - 1], acts[k - 1]);
      ActionKeepsWhole(ws[k - 1], acts[k - 1]);
    }
  }

  lemma FinishedIsSound(w: World)
    requires Whole(w) && HandOf(w).None?
    ensures Sound(w.db)
  {
    forall a, b | a in w.db.nodes && b in w.db.nodes && SameKey(w.db.nodes[a], w.db.nodes[b])
      ensures a == b
    {
      assert Faithful(w.db.raw, w.db.nodes[a]) && Faithful(w.db.raw, w.db.nodes[b]);
      if w.db.nodes[a].thread.None? {
        var i: nat :| IsStandalone(w.db.raw, i) && w.db.nodes[a] == SoloNode(w.db.raw, i);
        assert SharesSolo(w.db, a, b, i);
      } else {
        assert SameSession(w.db.nodes[a], w.db.nodes[b]);
      }
    }
  }

  /** Batching and concurrency alone do no damage, whatever arrives: when no pass dies over an
      episode and none is being written, a quiescent world holds what raw derives if and only
      if no covered row was superseded since. */
  lemma OrderlyAgreesIff(ws: seq<World>, acts: seq<Action>, k: nat)
    requires Schedule(ws, acts) && k <= |acts|
    requires forall j :: 0 <= j < |acts| ==> Orderly(ws[j], acts[j])
    requires Quiescent(ws[k].db) && HandOf(ws[k]).None?
    ensures Agrees(ws[k].db) <==> CoverageIsActive(ws[k].db)
  {
    ScheduleKeepsWhole(ws, acts, k);
    FinishedIsSound(ws[k]);
    AgreesIffCoverageIsActive(ws[k].db);
  }
}
