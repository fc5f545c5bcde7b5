/** A refresh that died half way, and a turn superseded afterwards: every count and every
    edge of the episode is right, nothing is pending, and its transcript still tells the
    turn that is gone. */
module HalfRefresh {
  import opened Prelude
  import opened Text
  import opened RecordTypes
  import opened Batches
  import opened Episodes
  import opened Rebuildable
  import opened SingleFlight
  import opened Crashes

  ghost predicate Reachable(w: World) {
    exists ws: seq<World>, acts: seq<Action> :: Schedule(ws, acts) && ws[|acts|] == w
  }

  lemma StartIsReachable()
    ensures Reachable(START)
  {
    assert Schedule([START], []);
  }

  lemma MoveReaches(w: World, a: Action, w': World)
    requires Reachable(w) && Moves(w, a, w')
    ensures Reachable(w')
  {
    var ws: seq<World>, acts: seq<Action> :| Schedule(ws, acts) && ws[|acts|] == w;
    var ws', acts' := ws + [w'], acts + [a];
    forall k | 0 <= k < |acts'|
      ensures Enabled(ws'[k], acts'[k]) && ws'[k + 1] == After(ws'[k], acts'[k])
    {
      if k < |acts| { assert Enabled(ws[k], acts[k]) && ws[k + 1] == After(ws[k], acts[k]); }
    }
    assert Schedule(ws', acts') && ws'[|acts'|] == w';
  }

  const AGAIN := Row(Conversation, Some(0), None, "again", 1, 1, "user:u")
  const FACT := Row(StateObject, None, None, "", 2, 2, "user:u")

  /** The episode over the first turn alone, and what a refresh of both turns writes over it. */
  const TOLD := SessionNode([HELLO], {0}, None, 0)
  const RETOLD := TOLD.(content := SessionNode([HELLO, AGAIN], {0, 1}, None, 0).content,
                        eventTime := SessionNode([HELLO, AGAIN], {0, 1}, None, 0).eventTime)

  function Settled(raw: seq<Row>, gone: set<nat>, node: Node): World {
    World(Tables(raw, gone, map[0 := node], 1), None, map[0 := Idle])
  }

  function Working(raw: seq<Row>, node: Node, pc: Pc): World {
    World(Tables(raw, {}, map[0 := node], 1), Some(0), map[0 := pc])
  }

  // ---------------------------------------------------------------------------
  // The schedule
  // ---------------------------------------------------------------------------

  lemma {:induction false} CrashWorldIsReachable(k: nat)
    requires k <= 5
    ensures Reachable(CrashWorld(k))
  {
    if k == 0 {
      StartIsReachable();
    } else {
      CrashWorldIsReachable(k - 1);
      CrashStep(k - 1);
      MoveReaches(CrashWorld(k - 1), CRASH[k - 1], CrashWorld(k));
    }
  }

  const LINKED := Held(map[0 := TOLD], 1, MetaWritten(true, None, 0, {}, []))

  lemma TurnIsLinked()
    ensures Moves(CrashWorld(5), LinkTurn(0, 0), LINKED)
  {
    assert BARE.(thread := Some(0), turns := 1).(raws := {0}) == TOLD;
    assert BARE.raws + {0} == {0} && {0} - {0} == {};
    var w := After(CrashWorld(5), LinkTurn(0, 0));
    assert w.db.nodes == LINKED.db.nodes && w.passes == LINKED.passes;
  }

  lemma PassStops()
    ensures Moves(LINKED, Stop(0), Settled([HELLO], {}, TOLD))
  {
  }

  lemma FirstTurnIsTold()
    ensures Reachable(Settled([HELLO], {}, TOLD))
  {
    CrashWorldIsReachable(5);
    TurnIsLinked();
    MoveReaches(CrashWorld(5), LinkTurn(0, 0), LINKED);
    PassStops();
    MoveReaches(LINKED, Stop(0), Settled([HELLO], {}, TOLD));
  }

  lemma BothTurns(db: Tables)
    requires db.raw == [HELLO, AGAIN] && db.gone == {}
    ensures Turns(db, None, 0) == {0, 1}
  {
    assert 0 in Turns(db, None, 0) && 1 in Turns(db, None, 0);
  }

  lemma TwoTurns()
    ensures |{0, 1}| == 2
  {
  }

  lemma OnlyStale()
    ensures Batch(StaleEpisodes(Working([HELLO, AGAIN], TOLD, Holding).db, None), OwnOrder, 1, [0])
  {
    var db := Working([HELLO, AGAIN], TOLD, Holding).db;
    BothTurns(db);
    TwoTurns();
    assert IsStale(db, None, 0);
    assert StaleEpisodes(db, None) == {0};
  }

  lemma SecondTurnArrives()
    ensures Moves(Settled([HELLO], {}, TOLD), NewRecord(AGAIN, None), Settled([HELLO, AGAIN], {}, TOLD))
    ensures Moves(Settled([HELLO, AGAIN], {}, TOLD), TryLock(0), Working([HELLO, AGAIN], TOLD, Holding))
  {
  }

  lemma StaleIsListed()
    ensures Moves(Working([HELLO, AGAIN], TOLD, Holding), ListStale(0, None, 1, [0]),
                  Working([HELLO, AGAIN], TOLD, Stale(None, [0])))
  {
    OnlyStale();
  }

  lemma RowIsWritten()
    ensures Moves(Working([HELLO, AGAIN], TOLD, Stale(None, [0])), WriteRow(0),
                  Working([HELLO, AGAIN], RETOLD, RowWritten(false, None, 0, 0, {0, 1}, [])))
  {
    var w := Working([HELLO, AGAIN], TOLD, Stale(None, [0]));
    BothTurns(w.db);
    assert 0 in Turns(w.db, None, 0);
    assert [0][1..] == [];
    var r := WriteRowAfter(w, 0);
    assert r.db.nodes == map[0 := RETOLD];
    assert r.passes == map[0 := RowWritten(false, None, 0, 0, {0, 1}, [])];
  }

  const BEGUN := Working([HELLO, AGAIN], RETOLD, RowWritten(false, None, 0, 0, {0, 1}, []))
  const LEFT := Settled([HELLO, AGAIN, FACT], {1}, RETOLD)

  lemma RefreshIsBegun()
    ensures Reachable(BEGUN)
  {
    FirstTurnIsTold();
    SecondTurnArrives();
    MoveReaches(Settled([HELLO], {}, TOLD), NewRecord(AGAIN, None), Settled([HELLO, AGAIN], {}, TOLD));
    MoveReaches(Settled([HELLO, AGAIN], {}, TOLD), TryLock(0), Working([HELLO, AGAIN], TOLD, Holding));
    StaleIsListed();
    MoveReaches(Working([HELLO, AGAIN], TOLD, Holding), ListStale(0, None, 1, [0]),
                Working([HELLO, AGAIN], TOLD, Stale(None, [0])));
    RowIsWritten();
    MoveReaches(Working([HELLO, AGAIN], TOLD, Stale(None, [0])), WriteRow(0), BEGUN);
  }

  lemma PassDies()
    ensures Moves(BEGUN, Stop(0), Settled([HELLO, AGAIN], {}, RETOLD))
    ensures Moves(Settled([HELLO, AGAIN], {}, RETOLD), NewRecord(FACT, Some(1)), LEFT)
  {
    assert [HELLO, AGAIN] + [FACT] == [HELLO, AGAIN, FACT] && {} + {1} == {1};
  }

  lemma LeftIsReachable()
    ensures Reachable(LEFT)
  {
    RefreshIsBegun();
    PassDies();
    MoveReaches(BEGUN, Stop(0), Settled([HELLO, AGAIN], {}, RETOLD));
    MoveReaches(Settled([HELLO, AGAIN], {}, RETOLD), NewRecord(FACT, Some(1)), LEFT);
  }

  // ---------------------------------------------------------------------------
  // What is left
  // ---------------------------------------------------------------------------

  lemma {:induction false} SpeakerIsShort(source: string)
    ensures |Speaker(source)| <= |source|
  {
    if source != "" { SpeakerIsShort(source[..|source| - 1]); }
  }

  lemma {:induction false} TrimStartIsShort(text: string)
    ensures |TrimStart(text)| <= |text|
  {
    if text != "" { TrimStartIsShort(text[1..]); }
  }

  lemma {:induction false} TrimEndIsShort(text: string)
    ensures |TrimEnd(text)| <= |text|
  {
    if text != "" { TrimEndIsShort(text[..|text| - 1]); }
  }

  lemma LineIsShort(r: Row)
    ensures 3 <= |Line(r)| <= |r.source| + |r.content| + 3
  {
    SpeakerIsShort(r.source);
    TrimStartIsShort(r.content);
    TrimEndIsShort(TrimStart(r.content));
  }

  lemma TwoLinesOutgrowOne(a: Row, b: Row)
    requires |a.source| + |a.content| + |b.source| + |b.content| <= 100
    ensures Rendered("", [a, b]) != Rendered("", [a])
  {
    LineIsShort(a);
    LineIsShort(b);
    assert [a][1..] == [] && [a, b][1..] == [b] && [b][1..] == [];
    assert Rendered("", [a]) == Rendered("" + Line(a), []);
    assert Rendered("", [a, b]) == Rendered("" + Line(a), [b]);
    assert Rendered("" + Line(a), [b]) == Rendered("" + Line(a) + Line(b), []);
  }

  lemma OrderOfTwo()
    ensures Ordered([HELLO, AGAIN], {0, 1}, 2) == [0, 1]
  {
    var raw := [HELLO, AGAIN];
    assert Ordered(raw, {0, 1}, 1) == Inserted(raw, [], 0) == [0];
    assert !Earlier(raw, 1, 0);
    assert Inserted(raw, [0], 1) == [0] + [1];
  }

  lemma OrderOfOne()
    ensures Ordered([HELLO, AGAIN, FACT], {0}, 3) == [0]
  {
    var raw := [HELLO, AGAIN, FACT];
    assert Ordered(raw, {0}, 1) == Inserted(raw, [], 0) == [0];
    assert Ordered(raw, {0}, 2) == Ordered(raw, {0}, 1);
  }

  /** The transcript still holds both lines; the session has one turn. */
  lemma StillTellsBoth()
    ensures RETOLD.content != SessionNode([HELLO, AGAIN, FACT], {0}, None, 0).content
  {
    OrderOfTwo();
    OrderOfOne();
    assert Pick([HELLO, AGAIN], [0, 1]) == [HELLO, AGAIN];
    assert Pick([HELLO, AGAIN, FACT], [0]) == [HELLO];
    TwoLinesOutgrowOne(HELLO, AGAIN);
  }

  lemma LeftTurns()
    ensures Turns(LEFT.db, None, 0) == {0}
  {
    assert 0 in Turns(LEFT.db, None, 0);
  }

  lemma LeftIsQuiescent()
    ensures Quiescent(LEFT.db)
  {
    LeftTurns();
    assert HasSession(LEFT.db, None, 0) by { assert LEFT.db.nodes[0].thread == Some(0); }
    forall m: Mode
      ensures PendingSessions(LEFT.db, m) == {} && PendingSolos(LEFT.db, m) == {}
    {
      forall i: nat
        ensures !IsPendingTurn(LEFT.db, m, i)
      {
      }
    }
  }

  lemma RetoldIsNotDerived(db: Tables, node: Node)
    requires db.raw == [HELLO, AGAIN, FACT] && Turns(db, None, 0) == {0}
    requires node.thread == Some(0) && node.mode == None && node.content == RETOLD.content
    ensures !IsDerived(db, node)
  {
    StillTellsBoth();
  }

  lemma LeftDisagrees()
    ensures !Agrees(LEFT.db)
  {
    LeftTurns();
    RetoldIsNotDerived(LEFT.db, RETOLD);
    assert LEFT.db.nodes[0] == RETOLD;
    assert HasNode(LEFT.db, RETOLD);
  }

  lemma LeftLooksWhole()
    ensures CoverageIsActive(LEFT.db) && !Torn(LEFT.db, 0) && LEFT.db.nodes[0].raws == Turns(LEFT.db, None, 0)
  {
    LeftTurns();
    assert RETOLD.raws == {0};
  }

  /** A turn is promoted; a second turn arrives; a refresh writes both into the transcript and
      dies before the meta; a fact then supersedes the second turn, which no edge covers.
      Nothing is pending, nobody holds the lock, count and edges are those of the one turn
      left - and the episode is not what raw derives. */
  lemma StaleTranscriptIsReachable()
    ensures Reachable(LEFT) && LEFT.lock.None? && Quiescent(LEFT.db) && CoverageIsActive(LEFT.db)
    ensures !Torn(LEFT.db, 0) && LEFT.db.nodes[0].raws == Turns(LEFT.db, None, 0)
    ensures !Agrees(LEFT.db)
  {
    LeftIsReachable();
    LeftIsQuiescent();
    LeftLooksWhole();
    LeftDisagrees();
  }
}
