/** Short histories from empty tables that reach the states in which promotion goes wrong. */
module Failures {
  import opened Prelude
  import opened RecordTypes
  import opened Batches
  import opened Episodes
  import opened Rebuildable
  import opened Refreshing

  function Said(t: nat): Row {
    Row(Conversation, Some(t), None, "said", 0, 0, "user:u")
  }

  const NOTE := Row(Document, None, None, "note", 0, 0, "user:u")

  /** A pass with a cap of one over a register where one session is all there is to do. */
  function SessionPass(t: nat): Pass {
    Pass(None, 1, [t], [], [])
  }

  function Promoted(db: Tables, t: nat): Tables {
    WithNode(db, SessionNode(db.raw, Turns(db, None, t), None, t))
  }

  lemma OneSessionPass(db: Tables, t: nat)
    requires Sound(db) && PendingSessions(db, None) == {t}
    requires StaleEpisodes(db, None) == {} && PendingSolos(db, None) == {}
    ensures IsPass(db, SessionPass(t), Promoted(db, t))
  {
    var p, nodes := SessionPass(t), SessionNodes(db, None, [t]);
    assert Batch({t}, OwnOrder, 1, [t]);
    SessionsStage(db, None, [t]);
    assert nodes[..|nodes| - 1] == [] && WithNodes(db, nodes[..|nodes| - 1]) == db;
    var one := WithNodes(db, nodes);
    assert one == Promoted(db, t);
    StaleUnmoved(db, p, one);
    NoneRefreshed(one);
    RefreshStage(one, None, []);
    SolosUnmoved(db, p, one, one);
    assert SoloNodes(one, []) == [];
  }

  lemma NoneRefreshed(db: Tables)
    ensures WithRefreshed(db, None, []) == db
  {
    assert WithRefreshed(db, None, []).nodes == db.nodes;
  }

  ghost predicate Reached(db: Tables) {
    exists dbs: seq<Tables>, es: seq<Event> :: Run(dbs, es) && dbs[0] == EMPTY_TABLES && dbs[|es|] == db
  }

  lemma EmptyIsReached()
    ensures Reached(EMPTY_TABLES)
  {
    assert Run([EMPTY_TABLES], []);
  }

  lemma StepReaches(db: Tables, e: Event, db': Tables)
    requires Reached(db) && Step(db, e, db')
    ensures Reached(db')
  {
    var dbs: seq<Tables>, es: seq<Event> :| Run(dbs, es) && dbs[0] == EMPTY_TABLES && dbs[|es|] == db;
    var dbs', es' := dbs + [db'], es + [e];
    forall k: nat | k < |es'|
      ensures StepAt(dbs', es', k)
    {
      if k < |es| { assert StepAt(dbs, es, k); }
    }
    assert Run(dbs', es') && dbs'[|es'|] == db';
  }

  lemma ReachedIsSound(db: Tables)
    requires Reached(db)
    ensures Sound(db)
  {
    var dbs: seq<Tables>, es: seq<Event> :| Run(dbs, es) && dbs[0] == EMPTY_TABLES && dbs[|es|] == db;
    RunKeepsSound(dbs, es, |es|);
  }

  // ---------------------------------------------------------------------------
  // One session, promoted
  // ---------------------------------------------------------------------------

  const HEARD := Arrived(EMPTY_TABLES, Said(0), None)
  const ONE := Promoted(HEARD, 0)

  lemma HeardTurns()
    ensures Turns(HEARD, None, 0) == {0} && PendingSessions(HEARD, None) == {0}
    ensures StaleEpisodes(HEARD, None) == {} && PendingSolos(HEARD, None) == {}
  {
    assert 0 in Turns(HEARD, None, 0);
    assert IsPendingTurn(HEARD, None, 0);
    assert 0 in PendingSessions(HEARD, None);
  }

  lemma OneIsReached()
    ensures Reached(ONE) && ONE.raw == [Said(0)] && ONE.gone == {} && ONE.next == 1
    ensures ONE.nodes == map[0 := SessionNode([Said(0)], {0}, None, 0)]
  {
    EmptyIsReached();
    StepReaches(EMPTY_TABLES, Arrive(Said(0), None), HEARD);
    ReachedIsSound(HEARD);
    HeardTurns();
    OneSessionPass(HEARD, 0);
    StepReaches(HEARD, Promote(SessionPass(0)), ONE);
  }

  lemma OneIsQuiescent()
    ensures Quiescent(ONE) && CoverageIsActive(ONE)
  {
    OneIsReached();
    HeardTurns();
    TurnsReadRaw(HEARD, ONE, None, 0);
    assert HasSession(ONE, None, 0);
    forall m: Mode
      ensures PendingSessions(ONE, m) == {} && PendingSolos(ONE, m) == {}
    {
      forall i: nat
        ensures !IsPendingTurn(ONE, m, i)
      {
      }
    }
  }

  // ---------------------------------------------------------------------------
  // A swap nobody notices
  // ---------------------------------------------------------------------------

  /** A turn is promoted, and a second turn of its session replaces it: nothing is pending,
      and the episode is not what raw derives. */
  lemma SwapIsReachable()
    ensures var db := Arrived(ONE, Said(0), Some(0)); Reached(db) && Quiescent(db) && !Agrees(db)
  {
    OneIsReached();
    OneIsQuiescent();
    ReachedIsSound(ONE);
    StepReaches(ONE, Arrive(Said(0), Some(0)), Arrived(ONE, Said(0), Some(0)));
    SwappedTurnGoesUnnoticed(ONE, 0, Said(0), 0);
  }

  // ---------------------------------------------------------------------------
  // A hollow episode in the way
  // ---------------------------------------------------------------------------

  const SECOND := Arrived(ONE, Said(1), None)
  const BOTH := Promoted(SECOND, 1)
  const EMPTIED := Arrived(BOTH, NOTE, Some(0))
  const GROWN := Arrived(EMPTIED, Said(1), None)

  lemma SecondTurns()
    ensures SECOND.raw == [Said(0), Said(1)] && SECOND.gone == {}
    ensures Turns(SECOND, None, 0) == {0} && Turns(SECOND, None, 1) == {1}
  {
    OneIsReached();
    assert 0 in Turns(SECOND, None, 0) && 1 in Turns(SECOND, None, 1);
  }

  lemma SecondIsPendingTurn(i: nat)
    ensures IsPendingTurn(SECOND, None, i) <==> i == 1
  {
    OneIsReached();
    SecondTurns();
    assert SECOND.nodes[0].thread == Some(0) && SECOND.nodes[0].mode == None;
    assert HasSession(SECOND, None, 0);
    assert forall n :: n in SECOND.nodes ==> n == 0;
  }

  lemma SecondIsPending()
    ensures PendingSessions(SECOND, None) == {1}
  {
    SecondTurns();
    forall i: nat
      ensures IsPendingTurn(SECOND, None, i) <==> i == 1
    {
      SecondIsPendingTurn(i);
    }
    OnlyPending(SECOND, 1);
  }

  lemma OnlyPending(db: Tables, i: nat)
    requires forall j: nat :: IsPendingTurn(db, None, j) <==> j == i
    ensures i < |db.raw| && db.raw[i].thread.Some? && PendingSessions(db, None) == {db.raw[i].thread.value}
  {
    assert IsPendingTurn(db, None, i);
    assert db.raw[i].thread.value in PendingSessions(db, None);
  }

  lemma SecondIsAll()
    ensures StaleEpisodes(SECOND, None) == {} && PendingSolos(SECOND, None) == {}
  {
    OneIsReached();
    SecondTurns();
    assert SECOND.nodes[0].turns == 1;
    forall n
      ensures !IsStale(SECOND, None, n)
    {
    }
  }

  lemma BothIsReached()
    ensures Reached(BOTH) && BOTH.raw == [Said(0), Said(1)] && BOTH.gone == {} && BOTH.next == 2
    ensures BOTH.nodes == map[0 := SessionNode([Said(0)], {0}, None, 0), 1 := SessionNode([Said(0), Said(1)], {1}, None, 1)]
  {
    OneIsReached();
    StepReaches(ONE, Arrive(Said(1), None), SECOND);
    ReachedIsSound(SECOND);
    SecondTurns();
    SecondIsPending();
    SecondIsAll();
    OneSessionPass(SECOND, 1);
    StepReaches(SECOND, Promote(SessionPass(1)), BOTH);
  }

  lemma GrownIsReached()
    ensures Reached(GROWN)
  {
    BothIsReached();
    StepReaches(BOTH, Arrive(NOTE, Some(0)), EMPTIED);
    StepReaches(EMPTIED, Arrive(Said(1), None), GROWN);
  }

  lemma GrownIs()
    ensures GROWN.raw == [Said(0), Said(1), NOTE, Said(1)] && GROWN.gone == {0} && GROWN.nodes == BOTH.nodes
  {
    BothIsReached();
  }

  lemma GrownTurns(db: Tables)
    requires db.raw == [Said(0), Said(1), NOTE, Said(1)] && db.gone == {0}
    ensures Turns(db, None, 0) == {} && Turns(db, None, 1) == {1, 3}
  {
    assert 1 in Turns(db, None, 1) && 3 in Turns(db, None, 1);
  }

  /** Two sessions are promoted, a note supersedes the only turn of the first, and the second
      grows: the first is hollow, and ahead of the second. */
  lemma HollowIsReachable()
    ensures Reached(GROWN) && Refreshable(GROWN, None, 1) && HollowAhead(GROWN, None, 1) == {0}
  {
    BothIsReached();
    GrownIsReached();
    GrownIs();
    GrownTurns(GROWN);
    assert GROWN.nodes[0].turns == 1 && GROWN.nodes[1].turns == 1;
    assert IsHollow(GROWN, None, 0) && |{1, 3}| == 2;
  }

  /** From there passes with a cap of one never refresh the second session. */
  lemma GrownSessionStarves(dbs: seq<Tables>, es: seq<Event>, k: nat)
    requires Run(dbs, es) && dbs[0] == GROWN && Steady(es, None, 1) && k <= |es|
    ensures 1 in dbs[k].nodes && dbs[k].nodes[1] == GROWN.nodes[1] && IsStale(dbs[k], None, 1)
  {
    HollowIsReachable();
    ReachedIsSound(GROWN);
    HollowHeadStarves(dbs, es, None, 1, 1, k);
  }
}
