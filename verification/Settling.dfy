/** Finitely many passes work every backlog off: how many it takes, register by register,
    and that a wipe followed by that many always ends in what raw derives. */
module Settling {
  import opened Prelude
  import opened Episodes
  import opened Rebuildable

  // ---------------------------------------------------------------------------
  // A pass leaves other registers alone
  // ---------------------------------------------------------------------------

  lemma SessionsElsewhere(db: Tables, p: Pass, one: Tables, two: Tables, db': Tables, m: Mode, t: nat)
    requires Staged(db, p, one, two, db') && m != p.mode
    ensures HasSession(db', m, t) <==> HasSession(db, m, t)
  {
    AddedSessions(db, SessionNodes(db, p.mode, p.sessions), one, m, t);
    RewrittenSessions(one, p.mode, p.stale, two, m, t);
    AddedSessions(two, SoloNodes(two, p.solos), db', m, t);
  }

  lemma PendingElsewhere(db: Tables, p: Pass, one: Tables, two: Tables, db': Tables, m: Mode)
    requires Staged(db, p, one, two, db') && m != p.mode
    ensures PendingSessions(db', m) == PendingSessions(db, m)
  {
    forall i: nat
      ensures IsPendingTurn(db', m, i) <==> IsPendingTurn(db, m, i)
    {
      if i < |db.raw| && db.raw[i].thread.Some? {
        SessionsElsewhere(db, p, one, two, db', m, db.raw[i].thread.value);
      }
    }
  }

  lemma SolosElsewhere(db: Tables, p: Pass, one: Tables, two: Tables, db': Tables, m: Mode)
    requires Staged(db, p, one, two, db') && m != p.mode
    ensures PendingSolos(db', m) == PendingSolos(db, m)
  {
    forall i: nat
      ensures i in PendingSolos(db', m) <==> i in PendingSolos(db, m)
    {
      if IsStandalone(db.raw, i) && db.raw[i].mode == m {
        StagesCover(db, p, one, two, db', i);
        NotListed(two, p, m, i);
      }
    }
  }

  lemma NotListed(two: Tables, p: Pass, m: Mode, i: nat)
    requires forall k :: 0 <= k < |p.solos| ==> p.solos[k] in PendingSolos(two, p.mode)
    requires i < |two.raw| && two.raw[i].mode == m && m != p.mode
    ensures i !in p.solos
  {
  }

  lemma StaleElsewhere(db: Tables, p: Pass, one: Tables, two: Tables, db': Tables, m: Mode)
    requires Staged(db, p, one, two, db') && m != p.mode
    ensures StaleEpisodes(db', m) == StaleEpisodes(db, m)
  {
    forall x
      ensures x in StaleEpisodes(db', m) <==> x in StaleEpisodes(db, m)
    {
      StaleAtElsewhere(db, p, one, two, db', m, x);
    }
  }

  lemma StaleAtElsewhere(db: Tables, p: Pass, one: Tables, two: Tables, db': Tables, m: Mode, x: nat)
    requires Staged(db, p, one, two, db') && m != p.mode
    ensures IsStale(db', m, x) <==> IsStale(db, m, x)
  {
    StaleUnlessAdded(db, SessionNodes(db, p.mode, p.sessions), one, m, x);
    StaleUnlessRewritten(one, p.mode, p.stale, two, m, x);
    StaleUnlessAdded(two, SoloNodes(two, p.solos), db', m, x);
  }

  /** Only nodes of the pass's own register are rewritten. */
  lemma StaleUnlessRewritten(db: Tables, own: Mode, q: seq<nat>, r: Tables, m: Mode, x: nat)
    requires Rewritten(db, own, q, r) && m != own
    ensures IsStale(r, m, x) <==> IsStale(db, m, x)
  {
    if x in db.nodes {
      assert RewrittenOrKept(db, own, q, x, r);
      if db.nodes[x].thread.Some? { TurnsReadRaw(db, r, m, db.nodes[x].thread.value); }
    }
  }

  /** New nodes are threadless or of another register. */
  lemma StaleUnlessAdded(db: Tables, nodes: seq<Node>, r: Tables, m: Mode, x: nat)
    requires Added(db, nodes, r) && forall k :: 0 <= k < |nodes| ==> nodes[k].thread.None? || nodes[k].mode != m
    ensures IsStale(r, m, x) <==> IsStale(db, m, x)
  {
    if x in db.nodes {
      if db.nodes[x].thread.Some? { TurnsReadRaw(db, r, m, db.nodes[x].thread.value); }
    } else if x in r.nodes {
      var k :| 0 <= k < |nodes| && nodes[k] == r.nodes[x];
    }
  }

  // ---------------------------------------------------------------------------
  // Backlogs
  // ---------------------------------------------------------------------------

  /** The largest of a register's three backlogs. */
  function Backlog(db: Tables, m: Mode): nat {
    Max(|PendingSessions(db, m)|, Max(|PendingSolos(db, m)|, |StaleEpisodes(db, m)|))
  }

  lemma NothingIsHollow(db: Tables, m: Mode, n: nat)
    requires Sound(db) && CoverageIsActive(db) && IsStale(db, m, n)
    ensures !IsHollow(db, m, n)
  {
    assert Faithful(db.raw, db.nodes[n]);
    var i :| i in db.nodes[n].raws;
    assert i in Turns(db, m, db.nodes[n].thread.value);
  }

  lemma OwnPassDrains(db: Tables, p: Pass, db': Tables)
    requires Sound(db) && CoverageIsActive(db) && IsPass(db, p, db')
    ensures Backlog(db', p.mode) == Max(0, Backlog(db, p.mode) - p.cap)
  {
    forall n: nat | IsStale(db, p.mode, n)
      ensures !IsHollow(db, p.mode, n)
    {
      NothingIsHollow(db, p.mode, n);
    }
    PassDrains(db, p, db');
    PassDrainsStale(db, p, db');
  }

  lemma OtherPassKeeps(db: Tables, p: Pass, db': Tables, m: Mode)
    requires Sound(db) && IsPass(db, p, db') && m != p.mode
    ensures Backlog(db', m) == Backlog(db, m)
  {
    var one, two := PassIsStaged(db, p, db');
    PendingElsewhere(db, p, one, two, db', m);
    SolosElsewhere(db, p, one, two, db', m);
    StaleElsewhere(db, p, one, two, db', m);
  }

  /** The places that passes over `m` have among the first `k` events. */
  function Places(es: seq<Event>, m: Mode, k: nat): nat
    requires k <= |es|
  {
    if k == 0 then 0
    else Places(es, m, k - 1) + PlacesOf(es[k - 1], m)
  }

  ghost predicate Settled(dbs: seq<Tables>, k: nat)
    requires k < |dbs|
  {
    Sound(dbs[k]) && CoverageIsActive(dbs[k])
  }

  lemma PassKeepsSettled(dbs: seq<Tables>, es: seq<Event>, k: nat)
    requires Run(dbs, es) && k < |es| && es[k].Promote? && Settled(dbs, k)
    ensures Settled(dbs, k + 1)
  {
    StepAtKeepsSound(dbs, es, k);
  }

  lemma {:induction false} StaysSettled(dbs: seq<Tables>, es: seq<Event>, k: nat)
    requires Run(dbs, es) && Settled(dbs, 0) && k <= |es| && forall e :: e in es ==> e.Promote?
    ensures Settled(dbs, k)
  {
    if k > 0 {
      StaysSettled(dbs, es, k - 1);
      assert es[k - 1] in es;
      PassKeepsSettled(dbs, es, k - 1);
    }
  }

  /** The places an event gives a register. */
  function PlacesOf(e: Event, m: Mode): nat {
    if e.Promote? && e.pass.mode == m then e.pass.cap else 0
  }

  lemma BacklogAt(dbs: seq<Tables>, es: seq<Event>, m: Mode, k: nat)
    requires Run(dbs, es) && Settled(dbs, 0) && k < |es| && forall e :: e in es ==> e.Promote?
    ensures Backlog(dbs[k + 1], m) == Max(0, Backlog(dbs[k], m) - PlacesOf(es[k], m))
  {
    StaysSettled(dbs, es, k);
    assert es[k] in es;
    StepOf(dbs, es, k);
    if es[k].pass.mode == m {
      OwnPassDrains(dbs[k], es[k].pass, dbs[k + 1]);
    } else {
      OtherPassKeeps(dbs[k], es[k].pass, dbs[k + 1], m);
    }
  }

  /** While coverage is active, a register's backlog is what it was minus the places its
      passes had, whatever registers the passes between them served. */
  lemma {:induction false} BacklogAfter(dbs: seq<Tables>, es: seq<Event>, m: Mode, k: nat)
    requires Run(dbs, es) && Settled(dbs, 0) && k <= |es| && forall e :: e in es ==> e.Promote?
    ensures Backlog(dbs[k], m) == Max(0, Backlog(dbs[0], m) - Places(es, m, k))
  {
    hide Backlog, Settled;
    if k > 0 {
      BacklogAfter(dbs, es, m, k - 1);
      BacklogAt(dbs, es, m, k - 1);
    }
  }

  lemma NoBacklogIsQuiescent(db: Tables)
    requires forall m: Mode :: Backlog(db, m) == 0
    ensures Quiescent(db)
  {
    forall m: Mode
      ensures PendingSessions(db, m) == {} && PendingSolos(db, m) == {} && StaleEpisodes(db, m) == {}
    {
      assert Backlog(db, m) == 0;
    }
    forall n | n in db.nodes && db.nodes[n].thread.Some?
      ensures db.nodes[n].turns == |Turns(db, db.nodes[n].mode, db.nodes[n].thread.value)|
    {
      assert n !in StaleEpisodes(db, db.nodes[n].mode);
    }
  }

  lemma QuiescentHasNoBacklog(db: Tables, m: Mode)
    requires Sound(db) && CoverageIsActive(db) && Quiescent(db)
    ensures Backlog(db, m) == 0
  {
    forall n
      ensures n !in StaleEpisodes(db, m)
    {
      if IsStale(db, m, n) { NothingIsHollow(db, m, n); }
    }
  }

  ghost predicate Enough(db: Tables, es: seq<Event>) {
    forall m: Mode :: Places(es, m, |es|) >= Backlog(db, m)
  }

  lemma EnoughSettles(dbs: seq<Tables>, es: seq<Event>)
    requires Run(dbs, es) && Settled(dbs, 0) && (forall e :: e in es ==> e.Promote?) && Enough(dbs[0], es)
    ensures Quiescent(dbs[|es|])
  {
    forall m: Mode
      ensures Backlog(dbs[|es|], m) == 0
    {
      BacklogAfter(dbs, es, m, |es|);
    }
    NoBacklogIsQuiescent(dbs[|es|]);
  }

  lemma SettledHadEnough(dbs: seq<Tables>, es: seq<Event>)
    requires Run(dbs, es) && Settled(dbs, 0) && (forall e :: e in es ==> e.Promote?) && Quiescent(dbs[|es|])
    ensures Enough(dbs[0], es)
  {
    StaysSettled(dbs, es, |es|);
    forall m: Mode
      ensures Places(es, m, |es|) >= Backlog(dbs[0], m)
    {
      BacklogAfter(dbs, es, m, |es|);
      QuiescentHasNoBacklog(dbs[|es|], m);
    }
  }

  /** Passes reach quiescence exactly when, in every register, their caps add up to its
      backlog. */
  lemma PassesSettleIff(dbs: seq<Tables>, es: seq<Event>)
    requires Run(dbs, es) && Sound(dbs[0]) && CoverageIsActive(dbs[0]) && forall e :: e in es ==> e.Promote?
    ensures Quiescent(dbs[|es|]) <==> Enough(dbs[0], es)
  {
    if Quiescent(dbs[|es|]) { SettledHadEnough(dbs, es); }
    if Enough(dbs[0], es) { EnoughSettles(dbs, es); }
  }

  /** A wipe and enough passes for every register always end in what raw derives. */
  lemma RebuildSettles(db: Tables, redo: seq<Tables>, passes: seq<Event>)
    requires forall g :: g in db.gone ==> g < |db.raw|
    requires Run(redo, passes) && redo[0] == Wiped(db) && forall e :: e in passes ==> e.Promote?
    requires Enough(Wiped(db), passes)
    ensures Quiescent(redo[|passes|]) && Agrees(redo[|passes|])
    ensures redo[|passes|].raw == db.raw && redo[|passes|].gone == db.gone
  {
    PassesSettleIff(redo, passes);
    PassesKeepSound(redo, passes);
    PassesKeepRaw(redo, passes, |passes|);
    AgreesIffCoverageIsActive(redo[|passes|]);
  }
}
