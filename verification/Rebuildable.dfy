/** The curated layer is rebuildable from raw: histories of arrivals and promotion passes,
    when they agree with a wipe and re-promotion, and exactly when they do not. */
module Rebuildable {
  import opened Prelude
  import opened RecordTypes
  import opened Batches
  import opened Episodes

  datatype Event =
    | Arrive(row: Row, claim: Option<nat>)
    | Promote(pass: Pass)

  const EMPTY_TABLES := Tables([], {}, map[], 0)

  function Arrived(db: Tables, row: Row, claim: Option<nat>): Tables {
    Tables(db.raw + [row], if claim.Some? then db.gone + {claim.value} else db.gone, db.nodes, db.next)
  }

  ghost predicate Step(db: Tables, e: Event, db': Tables) {
    match e
    case Arrive(row, claim) => (claim.Some? ==> claim.value < |db.raw|) && db' == Arrived(db, row, claim)
    case Promote(p) => IsPass(db, p, db')
  }

  /** The arrival supersedes nothing an episode already covers. */
  ghost predicate GrowsOnly(db: Tables, e: Event) {
    e.Arrive? && e.claim.Some? ==> !IsCovered(db, e.claim.value)
  }

  ghost predicate StepAt(dbs: seq<Tables>, es: seq<Event>, k: nat) {
    k < |es| && k + 1 < |dbs| && Step(dbs[k], es[k], dbs[k + 1])
  }

  ghost predicate Run(dbs: seq<Tables>, es: seq<Event>) {
    |dbs| == |es| + 1 && forall k: nat :: k < |es| ==> StepAt(dbs, es, k)
  }

  // ---------------------------------------------------------------------------
  // Invariants over whole runs
  // ---------------------------------------------------------------------------

  lemma FaithfulLater(raw: seq<Row>, more: seq<Row>, node: Node)
    requires Faithful(raw, node)
    ensures Faithful(raw + more, node)
  {
    match node.thread {
      case Some(t) =>
        forall i | i in node.raws
          ensures i < |raw| && IsTurn(raw + more, node.mode, t, i)
        {
          assert IsTurn(raw, node.mode, t, i);
        }
        SessionNodeStable(raw, more, node.raws, node.mode, t);
      case None =>
        var i: nat :| IsStandalone(raw, i) && node == SoloNode(raw, i);
        assert IsStandalone(raw + more, i) && node == SoloNode(raw + more, i);
    }
  }

  lemma StepKeepsSound(db: Tables, e: Event, db': Tables)
    requires Sound(db) && Step(db, e, db')
    ensures Sound(db')
    ensures CoverageIsActive(db) && GrowsOnly(db, e) ==> CoverageIsActive(db')
  {
    match e {
      case Arrive(row, claim) =>
        forall n | n in db'.nodes
          ensures n < db'.next && Faithful(db'.raw, db'.nodes[n])
        {
          FaithfulLater(db.raw, [row], db.nodes[n]);
        }
        if CoverageIsActive(db) && GrowsOnly(db, e) {
          forall n, i | n in db'.nodes && i in db'.nodes[n].raws
            ensures i !in db'.gone
          {
            assert IsCovered(db, i);
          }
        }
      case Promote(p) =>
        var one, two := PassIsStaged(db, p, db');
        if CoverageIsActive(db) {
          StagesKeepCoverage(db, p, one, two, db');
        }
    }
  }

  lemma StepOf(dbs: seq<Tables>, es: seq<Event>, k: nat)
    requires Run(dbs, es) && k < |es|
    ensures Step(dbs[k], es[k], dbs[k + 1])
  {
    assert StepAt(dbs, es, k);
  }

  lemma StepAtKeepsSound(dbs: seq<Tables>, es: seq<Event>, k: nat)
    requires Run(dbs, es) && k < |es| && Sound(dbs[k])
    ensures Sound(dbs[k + 1])
    ensures CoverageIsActive(dbs[k]) && GrowsOnly(dbs[k], es[k]) ==> CoverageIsActive(dbs[k + 1])
  {
    StepOf(dbs, es, k);
    StepKeepsSound(dbs[k], es[k], dbs[k + 1]);
  }

  lemma {:induction false} RunKeepsSound(dbs: seq<Tables>, es: seq<Event>, k: nat)
    requires Run(dbs, es) && Sound(dbs[0]) && k <= |es|
    ensures Sound(dbs[k])
  {
    if k > 0 {
      RunKeepsSound(dbs, es, k - 1);
      StepAtKeepsSound(dbs, es, k - 1);
    }
  }

  /** While arrivals supersede no covered row, every covered row stays active. */
  lemma {:induction false} RunKeepsCoverage(dbs: seq<Tables>, es: seq<Event>, k: nat)
    requires Run(dbs, es) && Sound(dbs[0]) && CoverageIsActive(dbs[0]) && k <= |es|
    requires forall j :: 0 <= j < k ==> GrowsOnly(dbs[j], es[j])
    ensures CoverageIsActive(dbs[k])
  {
    if k > 0 {
      RunKeepsCoverage(dbs, es, k - 1);
      RunKeepsSound(dbs, es, k - 1);
      StepAtKeepsSound(dbs, es, k - 1);
    }
  }

  // ---------------------------------------------------------------------------
  // Quiescence
  // ---------------------------------------------------------------------------

  ghost predicate NothingStale(db: Tables) {
    forall n :: n in db.nodes && db.nodes[n].thread.Some? ==>
      var turns := Turns(db, db.nodes[n].mode, db.nodes[n].thread.value);
      turns == {} || db.nodes[n].turns == |turns|
  }

  /** No register has pending sessions, pending standalone rows, or an episode whose
      session a pass would rewrite. */
  ghost predicate Quiescent(db: Tables) {
    && (forall m: Mode :: PendingSessions(db, m) == {})
    && (forall m: Mode :: PendingSolos(db, m) == {})
    && NothingStale(db)
  }

  /** What a wipe and complete re-promotion derives from raw. */
  ghost predicate IsDerived(db: Tables, node: Node) {
    match node.thread
    case Some(t) => Turns(db, node.mode, t) != {} && node == SessionNode(db.raw, Turns(db, node.mode, t), node.mode, t)
    case None => exists i: nat :: IsStandalone(db.raw, i) && i !in db.gone && node == SoloNode(db.raw, i)
  }

  /** The episodes are exactly the derived ones: thread or row, covered turns, transcript. */
  ghost predicate Agrees(db: Tables) {
    forall node :: HasNode(db, node) <==> IsDerived(db, node)
  }

  /** Under growth only, equal turn counts mean equal turn sets. */
  lemma EqualCountsEqualTurns(db: Tables, n: nat)
    requires Sound(db) && CoverageIsActive(db) && NothingStale(db)
    requires n in db.nodes && db.nodes[n].thread.Some?
    ensures db.nodes[n].raws == Turns(db, db.nodes[n].mode, db.nodes[n].thread.value)
  {
    var node := db.nodes[n];
    var turns := Turns(db, node.mode, node.thread.value);
    assert Faithful(db.raw, node);
    assert node.raws <= turns;
    var i :| i in node.raws;
    assert turns != {};
    SubsetSizes(node.raws, turns);
  }

  lemma NodeIsDerived(db: Tables, n: nat)
    requires Sound(db) && CoverageIsActive(db) && NothingStale(db) && n in db.nodes
    ensures IsDerived(db, db.nodes[n])
  {
    var node := db.nodes[n];
    assert Faithful(db.raw, node);
    if node.thread.Some? {
      EqualCountsEqualTurns(db, n);
    } else {
      var i: nat :| IsStandalone(db.raw, i) && node == SoloNode(db.raw, i);
      assert i in node.raws;
    }
  }

  lemma PendingTurnIsListed(db: Tables, m: Mode, i: nat)
    requires IsPendingTurn(db, m, i)
    ensures PendingSessions(db, m) != {}
  {
    assert db.raw[i].thread.value in PendingSessions(db, m);
  }

  lemma NoPendingTurn(db: Tables, m: Mode, i: nat)
    requires PendingSessions(db, m) == {}
    ensures !IsPendingTurn(db, m, i)
  {
    if IsPendingTurn(db, m, i) {
      PendingTurnIsListed(db, m, i);
    }
  }

  lemma DerivedIsThere(db: Tables, node: Node)
    requires Sound(db) && CoverageIsActive(db) && Quiescent(db) && IsDerived(db, node)
    ensures HasNode(db, node)
  {
    match node.thread {
      case Some(t) =>
        var i :| i in Turns(db, node.mode, t);
        assert PendingSessions(db, node.mode) == {};
        NoPendingTurn(db, node.mode, i);
        var n :| n in db.nodes && db.nodes[n].mode == node.mode && db.nodes[n].thread == Some(t);
        NodeIsDerived(db, n);
      case None =>
        var i: nat :| IsStandalone(db.raw, i) && i !in db.gone && node == SoloNode(db.raw, i);
        assert PendingSolos(db, db.raw[i].mode) == {};
        assert i !in PendingSolos(db, db.raw[i].mode);
        var n :| n in db.nodes && i in db.nodes[n].raws;
        CoverIsItsSolo(db, n, i);
    }
  }

  lemma CoverIsItsSolo(db: Tables, n: nat, i: nat)
    requires Sound(db) && n in db.nodes && i in db.nodes[n].raws && IsStandalone(db.raw, i)
    ensures db.nodes[n] == SoloNode(db.raw, i)
  {
    assert Faithful(db.raw, db.nodes[n]);
  }

  /** Once nothing is pending, the episodes are what a rebuild derives if and only if no
      covered row was superseded after it was covered. */
  lemma AgreesIffCoverageIsActive(db: Tables)
    requires Sound(db) && Quiescent(db)
    ensures Agrees(db) <==> CoverageIsActive(db)
  {
    if CoverageIsActive(db) {
      forall node
        ensures HasNode(db, node) <==> IsDerived(db, node)
      {
        if HasNode(db, node) {
          var n :| n in db.nodes && db.nodes[n] == node;
          NodeIsDerived(db, n);
        }
        if IsDerived(db, node) {
          DerivedIsThere(db, node);
        }
      }
    }
    if Agrees(db) {
      forall n, i | n in db.nodes && i in db.nodes[n].raws
        ensures i !in db.gone
      {
        assert HasNode(db, db.nodes[n]);
        DerivedCoversActive(db, db.nodes[n], i);
      }
    }
  }

  lemma DerivedCoversActive(db: Tables, node: Node, i: nat)
    requires IsDerived(db, node) && i in node.raws
    ensures i !in db.gone
  {
  }

  function Wiped(db: Tables): Tables {
    db.(nodes := map[])
  }

  lemma PassKeepsRaw(dbs: seq<Tables>, es: seq<Event>, k: nat)
    requires Run(dbs, es) && k < |es| && es[k].Promote?
    ensures dbs[k + 1].raw == dbs[k].raw && dbs[k + 1].gone == dbs[k].gone
  {
    StepOf(dbs, es, k);
  }

  lemma PassesKeepSound(dbs: seq<Tables>, es: seq<Event>)
    requires Run(dbs, es) && Sound(dbs[0]) && CoverageIsActive(dbs[0]) && forall e :: e in es ==> e.Promote?
    ensures Sound(dbs[|es|]) && CoverageIsActive(dbs[|es|])
  {
    assert forall k :: 0 <= k < |es| ==> es[k] in es;
    RunKeepsSound(dbs, es, |es|);
    RunKeepsCoverage(dbs, es, |es|);
  }

  lemma {:induction false} PassesKeepRaw(dbs: seq<Tables>, es: seq<Event>, k: nat)
    requires Run(dbs, es) && k <= |es| && forall e :: e in es ==> e.Promote?
    ensures dbs[k].raw == dbs[0].raw && dbs[k].gone == dbs[0].gone
  {
    if k > 0 {
      PassesKeepRaw(dbs, es, k - 1);
      assert es[k - 1] in es;
      PassKeepsRaw(dbs, es, k - 1);
    }
  }

  /** Incremental equals rebuild: any mix of arrivals and capped passes that supersedes no
      covered row, run until nothing is pending, has the same episodes as a wipe followed
      by passes (of any caps) until nothing is pending. */
  lemma IncrementalEqualsRebuild(dbs: seq<Tables>, es: seq<Event>, redo: seq<Tables>, passes: seq<Event>, node: Node)
    requires Run(dbs, es) && dbs[0] == EMPTY_TABLES
    requires forall k :: 0 <= k < |es| ==> GrowsOnly(dbs[k], es[k])
    requires Quiescent(dbs[|es|])
    requires Run(redo, passes) && redo[0] == Wiped(dbs[|es|]) && forall e :: e in passes ==> e.Promote?
    requires Quiescent(redo[|passes|])
    ensures HasNode(dbs[|es|], node) <==> HasNode(redo[|passes|], node)
  {
    var a, b := dbs[|es|], redo[|passes|];
    RunKeepsSound(dbs, es, |es|);
    RunKeepsCoverage(dbs, es, |es|);
    PassesKeepRaw(redo, passes, |passes|);
    PassesKeepSound(redo, passes);
    AgreesIffCoverageIsActive(a);
    AgreesIffCoverageIsActive(b);
    SameDerived(a, b, node);
  }

  lemma SameDerived(a: Tables, b: Tables, node: Node)
    requires a.raw == b.raw && a.gone == b.gone
    ensures IsDerived(a, node) <==> IsDerived(b, node)
  {
    forall m: Mode, t: nat
      ensures Turns(a, m, t) == Turns(b, m, t)
    {
    }
  }

  // ---------------------------------------------------------------------------
  // The backlog drains
  // ---------------------------------------------------------------------------

  lemma BatchSize(s: set<nat>, key: nat -> int, cap: nat, q: seq<nat>, left: set<nat>)
    requires Batch(s, key, cap, q)
    requires forall x :: x in left <==> x in s && x !in q
    ensures |left| == |s| - Min(cap, |s|)
  {
    var taken := Elements(q);
    DistinctSize(q);
    assert left == s - taken && s == (s - taken) + taken;
  }

  /** Every pass works off a full batch of each backlog: a backlog of size `b` is gone
      after `b / cap` rounded up passes. */
  lemma PassDrains(db: Tables, p: Pass, db': Tables)
    requires Sound(db) && IsPass(db, p, db')
    ensures var b := |PendingSessions(db, p.mode)|; |PendingSessions(db', p.mode)| == b - Min(p.cap, b)
    ensures var b := |PendingSolos(db, p.mode)|; |PendingSolos(db', p.mode)| == b - Min(p.cap, b)
  {
    var one, two := PassIsStaged(db, p, db');
    forall t
      ensures t in PendingSessions(db', p.mode) <==> t in PendingSessions(db, p.mode) && t !in p.sessions
    {
      PassDrainsSessions(db, p, one, two, db', t);
    }
    BatchSize(PendingSessions(db, p.mode), OwnOrder, p.cap, p.sessions, PendingSessions(db', p.mode));
    SolosAreListed(db, p, db');
    forall i
      ensures i in PendingSolos(db', p.mode) <==> i in PendingSolos(db, p.mode) && i !in p.solos
    {
      PassDrainsSolos(db, p, one, two, db', i);
    }
    BatchSize(PendingSolos(db, p.mode), TimeOf(db.raw), p.cap, p.solos, PendingSolos(db', p.mode));
  }

  /** The standalone rows listed after the first two stages are those pending before them. */
  lemma SolosAreListed(db: Tables, p: Pass, db': Tables)
    requires Sound(db) && IsPass(db, p, db')
    ensures Batch(PendingSolos(db, p.mode), TimeOf(db.raw), p.cap, p.solos)
  {
    var one := WithNodes(db, SessionNodes(db, p.mode, p.sessions));
    var two := WithRefreshed(one, p.mode, p.stale);
    SessionsStage(db, p.mode, p.sessions);
    RefreshStage(one, p.mode, p.stale);
    SolosUnmoved(db, p, one, two);
  }

  lemma SolosUnmoved(db: Tables, p: Pass, one: Tables, two: Tables)
    requires Added(db, SessionNodes(db, p.mode, p.sessions), one) && Rewritten(one, p.mode, p.stale, two)
    ensures PendingSolos(two, p.mode) == PendingSolos(db, p.mode)
  {
    forall i
      ensures i in PendingSolos(two, p.mode) <==> i in PendingSolos(db, p.mode)
    {
      if IsStandalone(db.raw, i) {
        AddedCovers(db, SessionNodes(db, p.mode, p.sessions), one, i);
        SessionNodesCover(db, p.mode, p.sessions, i);
        RewrittenCovers(one, p.mode, p.stale, two, i);
      }
    }
  }

  // ---------------------------------------------------------------------------
  // Idle passes
  // ---------------------------------------------------------------------------

  lemma NothingToDo(db: Tables, p: Pass, db': Tables)
    requires IsPass(db, p, db')
    requires PendingSessions(db, p.mode) == {} && PendingSolos(db, p.mode) == {}
    requires forall n :: n in p.stale ==> IsHollow(db, p.mode, n)
    ensures db' == db
  {
    assert SessionNodes(db, p.mode, p.sessions) == [];
    forall n | n in db.nodes && n in p.stale
      ensures Refreshed(db, p.mode, n) == db.nodes[n]
    {
      assert IsHollow(db, p.mode, n);
    }
    assert WithRefreshed(db, p.mode, p.stale).nodes == db.nodes;
  }

  /** A pass changes nothing if and only if nothing is pending and it lists no episode it
      could refresh. */
  lemma IdlePassIff(db: Tables, p: Pass, db': Tables)
    requires Sound(db) && IsPass(db, p, db') && p.cap > 0
    ensures db' == db <==>
              PendingSessions(db, p.mode) == {} && PendingSolos(db, p.mode) == {}
              && forall n :: n in p.stale ==> IsHollow(db, p.mode, n)
  {
    if db' == db {
      PassDrains(db, p, db');
      assert Min(p.cap, |PendingSessions(db, p.mode)|) == 0 && Min(p.cap, |PendingSolos(db, p.mode)|) == 0;
      forall n | n in p.stale
        ensures IsHollow(db, p.mode, n)
      {
        ListedIsHollow(db, p, db', n);
      }
    }
    if PendingSessions(db, p.mode) == {} && PendingSolos(db, p.mode) == {} && forall n :: n in p.stale ==> IsHollow(db, p.mode, n) {
      NothingToDo(db, p, db');
    }
  }

  lemma ListedIsHollow(db: Tables, p: Pass, db': Tables, n: nat)
    requires Sound(db) && IsPass(db, p, db') && db' == db && n in p.stale
    ensures IsHollow(db, p.mode, n)
  {
    var one, two := PassIsStaged(db, p, db');
    StaleBatch(db, p, db');
    assert n in StaleEpisodes(db, p.mode);
    if !IsHollow(db, p.mode, n) {
      RefreshedIsNotStale(db, p, one, two, db', n);
    }
  }

  // ---------------------------------------------------------------------------
  // Where the count misses: a superseded turn and a new one
  // ---------------------------------------------------------------------------

  lemma OneOutOneIn(before: set<nat>, after: set<nat>, out: nat, add: nat)
    requires out in before && add !in before && after == before - {out} + {add}
    ensures |after| == |before|
  {
    assert |before - {out}| == |before| - 1;
  }

  /** For every settled store: an arriving turn that supersedes a covered turn of its own
      session leaves the counts equal, so no pass has anything to do - and the episodes no
      longer are what a rebuild derives. */
  lemma SwappedTurnGoesUnnoticed(db: Tables, n: nat, row: Row, claim: nat)
    requires Sound(db) && Quiescent(db) && CoverageIsActive(db)
    requires n in db.nodes && db.nodes[n].thread.Some? && claim in db.nodes[n].raws
    requires row.rtype == Conversation && row.thread == db.nodes[n].thread && row.mode == db.nodes[n].mode
    ensures claim < |db.raw|
    ensures Quiescent(Arrived(db, row, Some(claim))) && !Agrees(Arrived(db, row, Some(claim)))
  {
    var db' := Arrived(db, row, Some(claim));
    var m, t := row.mode, row.thread.value;
    assert Faithful(db.raw, db.nodes[n]);
    assert IsTurn(db.raw, m, t, claim);
    EqualCountsEqualTurns(db, n);
    forall m', t' | m' != m || t' != t
      ensures Turns(db', m', t') == Turns(db, m', t')
    {
      TurnsElsewhere(db, row, claim, m', t');
    }
    forall i: nat
      ensures i in Turns(db', m, t) <==> i in Turns(db, m, t) - {claim} + {|db.raw|}
    {
      if i < |db.raw| { assert db'.raw[i] == db.raw[i]; }
    }
    assert Turns(db', m, t) == Turns(db, m, t) - {claim} + {|db.raw|};
    OneOutOneIn(Turns(db, m, t), Turns(db', m, t), claim, |db.raw|);
    assert NothingStale(db');
    StillNothingPending(db, n, row, claim);
    StepKeepsSound(db, Arrive(row, Some(claim)), db');
    AgreesIffCoverageIsActive(db');
  }

  lemma TurnsElsewhere(db: Tables, row: Row, claim: nat, m: Mode, t: nat)
    requires row.rtype == Conversation && row.thread.Some?
    requires IsTurn(db.raw, row.mode, row.thread.value, claim)
    requires m != row.mode || t != row.thread.value
    ensures Turns(Arrived(db, row, Some(claim)), m, t) == Turns(db, m, t)
  {
    var db' := Arrived(db, row, Some(claim));
    forall i: nat
      ensures i in Turns(db', m, t) <==> i in Turns(db, m, t)
    {
      if i < |db.raw| { assert db'.raw[i] == db.raw[i]; }
    }
  }

  lemma StillNothingPending(db: Tables, n: nat, row: Row, claim: nat)
    requires Quiescent(db) && n in db.nodes
    requires row.rtype == Conversation && row.thread.Some? && row.thread == db.nodes[n].thread && row.mode == db.nodes[n].mode
    ensures forall m: Mode :: PendingSessions(Arrived(db, row, Some(claim)), m) == {}
    ensures forall m: Mode :: PendingSolos(Arrived(db, row, Some(claim)), m) == {}
  {
    var db' := Arrived(db, row, Some(claim));
    forall m: Mode
      ensures PendingSessions(db', m) == {} && PendingSolos(db', m) == {}
    {
      assert HasSession(db', row.mode, row.thread.value);
      assert PendingSessions(db, m) == {} && PendingSolos(db, m) == {};
      forall i: nat | i < |db'.raw|
        ensures !IsPendingTurn(db', m, i)
      {
        NotPendingLater(db, row, claim, m, i);
      }
      forall i: nat
        ensures i !in PendingSolos(db', m)
      {
        assert i !in PendingSolos(db, m);
        if i < |db.raw| { assert db'.raw[i] == db.raw[i]; }
      }
    }
  }

  lemma NotPendingLater(db: Tables, row: Row, claim: nat, m: Mode, i: nat)
    requires PendingSessions(db, m) == {} && row.thread.Some? && i <= |db.raw|
    requires HasSession(db, row.mode, row.thread.value)
    ensures !IsPendingTurn(Arrived(db, row, Some(claim)), m, i)
  {
    if i < |db.raw| {
      NoPendingTurn(db, m, i);
      assert Arrived(db, row, Some(claim)).raw[i] == db.raw[i];
    }
  }

  // ---------------------------------------------------------------------------
  // The refresh stage: sessions with no active turn left stay listed
  // ---------------------------------------------------------------------------

  /** The episode is listed as stale, but its session has nothing to refresh it from. */
  predicate IsHollow(db: Tables, m: Mode, n: nat) {
    IsStale(db, m, n) && Turns(db, m, db.nodes[n].thread.value) == {}
  }

  lemma TurnsReadRaw(a: Tables, b: Tables, m: Mode, t: nat)
    requires a.raw == b.raw && a.gone == b.gone
    ensures Turns(a, m, t) == Turns(b, m, t)
  {
  }

  /** What a pass does to one stale episode: nothing unless it is listed and has turns. */
  lemma StagesAt(db: Tables, p: Pass, one: Tables, two: Tables, db': Tables, x: nat)
    requires Staged(db, p, one, two, db')
    ensures IsStale(db', p.mode, x) ==> IsStale(db, p.mode, x)
    ensures IsStale(db, p.mode, x) && (x !in p.stale || IsHollow(db, p.mode, x)) ==>
              x in db'.nodes && db'.nodes[x] == db.nodes[x] && IsStale(db', p.mode, x)
  {
    StaleAfterSessions(db, p, one, x);
    if x in one.nodes {
      assert RewrittenOrKept(one, p.mode, p.stale, x, two);
      assert db'.nodes[x] == two.nodes[x];
      if one.nodes[x].thread.Some? {
        TurnsReadRaw(db, db', one.nodes[x].mode, one.nodes[x].thread.value);
        TurnsReadRaw(db, one, one.nodes[x].mode, one.nodes[x].thread.value);
      }
    } else if x in db'.nodes {
      var k :| 0 <= k < |p.solos| && SoloNodes(two, p.solos)[k] == db'.nodes[x];
    }
  }

  lemma StaleAfterSessions(db: Tables, p: Pass, one: Tables, x: nat)
    requires Added(db, SessionNodes(db, p.mode, p.sessions), one)
    ensures x in StaleEpisodes(one, p.mode) <==> IsStale(db, p.mode, x)
    ensures x in db.nodes ==> x in one.nodes && one.nodes[x] == db.nodes[x]
  {
    if x in one.nodes && x !in db.nodes {
      var k :| 0 <= k < |p.sessions| && SessionNodes(db, p.mode, p.sessions)[k] == one.nodes[x];
    }
    if x in one.nodes && one.nodes[x].thread.Some? {
      TurnsReadRaw(db, one, one.nodes[x].mode, one.nodes[x].thread.value);
    }
  }

  lemma StaleUnmoved(db: Tables, p: Pass, one: Tables)
    requires Added(db, SessionNodes(db, p.mode, p.sessions), one)
    ensures StaleEpisodes(one, p.mode) == StaleEpisodes(db, p.mode)
  {
    forall x
      ensures x in StaleEpisodes(one, p.mode) <==> x in StaleEpisodes(db, p.mode)
    {
      StaleAfterSessions(db, p, one, x);
    }
  }

  lemma StaleBatch(db: Tables, p: Pass, db': Tables)
    requires Sound(db) && IsPass(db, p, db')
    ensures Batch(StaleEpisodes(db, p.mode), OwnOrder, p.cap, p.stale)
  {
    SessionsStage(db, p.mode, p.sessions);
    StaleUnmoved(db, p, WithNodes(db, SessionNodes(db, p.mode, p.sessions)));
  }

  /** Without hollow episodes the refresh stage drains like the other two. */
  lemma PassDrainsStale(db: Tables, p: Pass, db': Tables)
    requires Sound(db) && IsPass(db, p, db')
    requires forall n: nat :: IsStale(db, p.mode, n) ==> !IsHollow(db, p.mode, n)
    ensures var b := |StaleEpisodes(db, p.mode)|; |StaleEpisodes(db', p.mode)| == b - Min(p.cap, b)
  {
    var one, two := PassIsStaged(db, p, db');
    StaleBatch(db, p, db');
    forall x
      ensures x in StaleEpisodes(db', p.mode) <==> x in StaleEpisodes(db, p.mode) && x !in p.stale
    {
      StagesAt(db, p, one, two, db', x);
      if x in p.stale {
        RefreshedIsNotStale(db, p, one, two, db', x);
      }
    }
    BatchSize(StaleEpisodes(db, p.mode), OwnOrder, p.cap, p.stale, StaleEpisodes(db', p.mode));
  }

  lemma RefreshedIsNotStale(db: Tables, p: Pass, one: Tables, two: Tables, db': Tables, x: nat)
    requires Staged(db, p, one, two, db') && x in p.stale
    requires IsStale(db, p.mode, x) && !IsHollow(db, p.mode, x)
    ensures !IsStale(db', p.mode, x)
  {
    var t := db.nodes[x].thread.value;
    StaleAfterSessions(db, p, one, x);
    TurnsReadRaw(db, one, p.mode, t);
    TurnsReadRaw(db, db', p.mode, t);
    assert RewrittenOrKept(one, p.mode, p.stale, x, two);
    assert db'.nodes[x] == two.nodes[x];
  }
}
