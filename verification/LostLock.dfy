/** Why the lock has to hold: the one step the single-flight result leaves out is the lock's
    own connection dying under a pass that lives on. One such loss is enough for two
    episodes of one session. */
module LostLock {
  import opened Prelude
  import opened Batches
  import opened Episodes
  import opened Rebuildable
  import opened SingleFlight
  import opened Crashes

  /** A statement of a pass, or - None - the lock is gone and nobody notices. */
  ghost predicate LossyStep(w: World, a: Option<Action>, w': World) {
    match a
    case Some(act) => Moves(w, act, w')
    case None => w' == w.(lock := None)
  }

  ghost predicate LossySchedule(ws: seq<World>, acts: seq<Option<Action>>) {
    && |ws| == |acts| + 1 && ws[0] == START
    && forall k :: 0 <= k < |acts| ==> LossyStep(ws[k], acts[k], ws[k + 1])
  }

  /** A pass lists a session, loses its lock, a second pass lists it too, and both write it. */
  const LOSS: seq<Option<Action>> := [
    Some(NewRecord(HELLO, None)), Some(TryLock(0)), Some(ListSessions(0, None, 1, [0])), None,
    Some(TryLock(1)), Some(ListSessions(1, None, 1, [0])),
    Some(WriteRow(0)), Some(WriteMeta(0)), Some(WriteRow(1)), Some(WriteMeta(1))]

  const EPISODE := BARE.(thread := Some(0), turns := 1)
  const LISTED := Sessions(None, [0])

  function Written(n: nat): Pc {
    RowWritten(true, None, n, 0, {0}, [])
  }

  function Linking(n: nat): Pc {
    MetaWritten(true, None, n, {0}, [])
  }

  function Both(nodes: map<nat, Node>, next: nat, first: Pc, second: Pc): World {
    World(Tables([HELLO], {}, nodes, next), Some(1), map[0 := first, 1 := second])
  }

  function LossWorld(k: nat): World {
    match k
    case 4 => World(ONE_ROW, None, map[0 := LISTED])
    case 5 => Both(map[], 0, LISTED, Holding)
    case 6 => Both(map[], 0, LISTED, LISTED)
    case 7 => Both(map[0 := BARE], 1, Written(0), LISTED)
    case 8 => Both(map[0 := EPISODE], 1, Linking(0), LISTED)
    case 9 => Both(map[0 := EPISODE, 1 := BARE], 2, Linking(0), Written(1))
    case 10 => Both(map[0 := EPISODE, 1 := EPISODE], 2, Linking(0), Linking(1))
    case _ => CrashWorld(k)
  }

  lemma LosesAndLists()
    ensures LossyStep(LossWorld(3), None, LossWorld(4))
    ensures Moves(LossWorld(4), TryLock(1), LossWorld(5)) && Moves(LossWorld(5), ListSessions(1, None, 1, [0]), LossWorld(6))
  {
    HelloIsPending();
  }

  lemma FirstWrites()
    ensures Moves(LossWorld(6), WriteRow(0), LossWorld(7))
  {
    var w := LossWorld(6);
    HelloTurns(w.db);
    assert Turns(w.db, None, 0) != {};
    assert PcOf(w, 0).todo[1..] == [];
    var r := WriteRowAfter(w, 0);
    assert r.db == LossWorld(7).db && r.passes == LossWorld(7).passes;
  }

  lemma SecondWrites()
    ensures Moves(LossWorld(8), WriteRow(1), LossWorld(9))
  {
    var w := LossWorld(8);
    HelloTurns(w.db);
    assert Turns(w.db, None, 0) != {};
    assert PcOf(w, 1).todo[1..] == [];
    var r := WriteRowAfter(w, 1);
    assert r.db == LossWorld(9).db && r.passes == LossWorld(9).passes;
  }

  lemma FirstMeta()
    ensures Moves(LossWorld(7), WriteMeta(0), LossWorld(8))
  {
  }

  lemma SecondMeta()
    ensures Moves(LossWorld(9), WriteMeta(1), LossWorld(10))
  {
  }

  lemma LossStep(k: nat)
    requires k < 10
    ensures LossyStep(LossWorld(k), LOSS[k], LossWorld(k + 1))
  {
    if k < 3 {
      CrashStep(k);
    } else {
      LosesAndLists();
      FirstWrites();
      SecondWrites();
      FirstMeta();
      SecondMeta();
    }
  }

  /** With one lost lock the guarantee is gone: two episodes for one session. */
  lemma LostLockDuplicates()
    ensures exists ws: seq<World> :: LossySchedule(ws, LOSS) && !EpisodesUnique(ws[10].db)
  {
    var ws := seq(11, k requires 0 <= k < 11 => LossWorld(k));
    forall k | 0 <= k < |LOSS|
      ensures LossyStep(ws[k], LOSS[k], ws[k + 1])
    {
      LossStep(k);
    }
    assert SameSession(ws[10].db.nodes[0], ws[10].db.nodes[1]);
    assert LossySchedule(ws, LOSS);
  }
}
