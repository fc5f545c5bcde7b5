/** When a stale episode is refreshed, and when it never is. A session whose turns have all
    been superseded stays listed with nothing to refresh it from, so it takes a place in
    every batch; the places left over decide what happens to the episodes behind it. */
module Refreshing {
  import opened Prelude
  import opened Batches
  import opened Episodes
  import opened Rebuildable

  /** The hollow episodes listed ahead of `n`. */
  function HollowAhead(db: Tables, m: Mode, n: nat): set<nat> {
    set h | h in db.nodes && h < n && IsHollow(db, m, h)
  }

  /** The stale episodes listed ahead of `n` that a pass can refresh. */
  function WaitingAhead(db: Tables, m: Mode, n: nat): set<nat> {
    set x | x in db.nodes && x < n && IsStale(db, m, x) && !IsHollow(db, m, x)
  }

  /** Stale, and up to a refresh away from being up to date. */
  ghost predicate Refreshable(db: Tables, m: Mode, n: nat) {
    IsStale(db, m, n) && !IsHollow(db, m, n)
  }

  // ---------------------------------------------------------------------------
  // One pass
  // ---------------------------------------------------------------------------

  lemma PassAt(db: Tables, p: Pass, db': Tables, x: nat)
    requires Sound(db) && IsPass(db, p, db')
    ensures IsStale(db', p.mode, x) ==> IsStale(db, p.mode, x)
    ensures IsHollow(db', p.mode, x) <==> IsHollow(db, p.mode, x)
    ensures IsStale(db, p.mode, x) && (x !in p.stale || IsHollow(db, p.mode, x)) ==>
              x in db'.nodes && db'.nodes[x] == db.nodes[x] && IsStale(db', p.mode, x)
    ensures Refreshable(db, p.mode, x) && x in p.stale ==> !IsStale(db', p.mode, x)
  {
    var one, two := PassIsStaged(db, p, db');
    StagesAt(db, p, one, two, db', x);
    if Refreshable(db, p.mode, x) && x in p.stale {
      RefreshedIsNotStale(db, p, one, two, db', x);
    }
    if IsStale(db, p.mode, x) {
      TurnsReadRaw(db, db', p.mode, db.nodes[x].thread.value);
    }
  }

  lemma HollowStays(db: Tables, p: Pass, db': Tables, n: nat)
    requires Sound(db) && IsPass(db, p, db')
    ensures HollowAhead(db', p.mode, n) == HollowAhead(db, p.mode, n)
  {
    forall x
      ensures x in HollowAhead(db', p.mode, n) <==> x in HollowAhead(db, p.mode, n)
    {
      PassAt(db, p, db', x);
    }
  }

  /** A batch by id that holds `n` holds everything listed ahead of it. */
  lemma AheadIsListed(s: set<nat>, cap: nat, q: seq<nat>, n: nat, ahead: set<nat>)
    requires Batch(s, OwnOrder, cap, q) && n in q
    requires forall h :: h in ahead ==> h in s && h < n
    ensures |ahead| < cap
  {
    var k :| 0 <= k < |q| && q[k] == n;
    forall h | h in ahead
      ensures h in q
    {
      assert h !in q ==> OwnOrder(q[k]) <= OwnOrder(h);
    }
    DistinctSize(q);
    SubsetSizes(ahead + {n}, Elements(q));
  }

  /** A full batch's worth of hollow episodes ahead of `n` keeps it out of the batch. */
  lemma HollowHeadBlocksPass(db: Tables, p: Pass, db': Tables, n: nat)
    requires Sound(db) && IsPass(db, p, db') && Refreshable(db, p.mode, n)
    requires |HollowAhead(db, p.mode, n)| >= p.cap
    ensures n !in p.stale
    ensures n in db'.nodes && db'.nodes[n] == db.nodes[n] && Refreshable(db', p.mode, n)
    ensures HollowAhead(db', p.mode, n) == HollowAhead(db, p.mode, n)
  {
    StaleBatch(db, p, db');
    if n in p.stale {
      AheadIsListed(StaleEpisodes(db, p.mode), p.cap, p.stale, n, HollowAhead(db, p.mode, n));
    }
    PassAt(db, p, db', n);
    HollowStays(db, p, db', n);
  }

  /** A batch that leaves `n` out is full of episodes listed ahead of it. */
  lemma FullAhead(s: set<nat>, cap: nat, q: seq<nat>, n: nat)
    requires Batch(s, OwnOrder, cap, q) && n in s && n !in q
    ensures |Elements(q)| == cap && forall x :: x in q ==> x in s && x < n
  {
    DistinctSize(q);
    SubsetSizes(Elements(q) + {n}, s);
    forall x | x in q
      ensures x < n
    {
      var k :| 0 <= k < |q| && q[k] == x;
      assert OwnOrder(q[k]) <= OwnOrder(n);
    }
  }

  lemma ListedAhead(db: Tables, p: Pass, db': Tables, n: nat)
    requires Sound(db) && IsPass(db, p, db') && IsStale(db, p.mode, n) && n !in p.stale
    ensures |Elements(p.stale)| == p.cap
    ensures Elements(p.stale) <= WaitingAhead(db, p.mode, n) + HollowAhead(db, p.mode, n)
  {
    StaleBatch(db, p, db');
    FullAhead(StaleEpisodes(db, p.mode), p.cap, p.stale, n);
  }

  /** The listed episodes that can be refreshed are, and stop waiting. */
  lemma WaitingShrinks(db: Tables, p: Pass, db': Tables, n: nat)
    requires Sound(db) && IsPass(db, p, db') && Refreshable(db, p.mode, n) && n !in p.stale
    ensures |WaitingAhead(db', p.mode, n)| + p.cap <= |WaitingAhead(db, p.mode, n)| + |HollowAhead(db, p.mode, n)|
  {
    ListedAhead(db, p, db', n);
    var listed, hollow := Elements(p.stale), HollowAhead(db, p.mode, n);
    var before, after := WaitingAhead(db, p.mode, n), WaitingAhead(db', p.mode, n);
    forall x | x in after
      ensures x in before && x !in listed
    {
      PassAt(db, p, db', x);
    }
    SubsetSizes(after + listed, before + hollow);
    DisjointSizes(before, hollow);
    DisjointSizes(after, listed);
  }

  lemma DisjointSizes(a: set<nat>, b: set<nat>)
    requires a !! b
    ensures |a + b| == |a| + |b|
  {
  }

  // ---------------------------------------------------------------------------
  // Whole runs
  // ---------------------------------------------------------------------------

  /** Passes over one register with one cap, and no arrivals. */
  ghost predicate Steady(es: seq<Event>, m: Mode, cap: nat) {
    forall k: nat :: k < |es| ==> IsPassOver(es[k], m, cap)
  }

  ghost predicate IsPassOver(e: Event, m: Mode, cap: nat) {
    e.Promote? && e.pass.mode == m && e.pass.cap == cap
  }

  /** `n` and the hollow episodes ahead of it are as they were, and `n` is still stale. */
  ghost predicate Unmoved(was: Tables, db: Tables, m: Mode, n: nat) {
    && n in was.nodes && n in db.nodes && db.nodes[n] == was.nodes[n]
    && Refreshable(db, m, n) && HollowAhead(db, m, n) == HollowAhead(was, m, n)
  }

  lemma HollowHeadBlocksAt(dbs: seq<Tables>, es: seq<Event>, m: Mode, cap: nat, n: nat, k: nat)
    requires Run(dbs, es) && Sound(dbs[0]) && Steady(es, m, cap) && k < |es|
    requires |HollowAhead(dbs[0], m, n)| >= cap && Unmoved(dbs[0], dbs[k], m, n)
    ensures Unmoved(dbs[0], dbs[k + 1], m, n)
  {
    RunKeepsSound(dbs, es, k);
    StepOf(dbs, es, k);
    assert IsPassOver(es[k], m, cap);
    HollowHeadBlocksPass(dbs[k], es[k].pass, dbs[k + 1], n);
  }

  /** Behind a full batch's worth of hollow episodes, `n` is never refreshed, however many
      passes run. */
  lemma {:induction false} HollowHeadStarves(dbs: seq<Tables>, es: seq<Event>, m: Mode, cap: nat, n: nat, k: nat)
    requires Run(dbs, es) && Sound(dbs[0]) && Steady(es, m, cap) && k <= |es|
    requires Refreshable(dbs[0], m, n) && |HollowAhead(dbs[0], m, n)| >= cap
    ensures Unmoved(dbs[0], dbs[k], m, n)
  {
    if k > 0 {
      HollowHeadStarves(dbs, es, m, cap, n, k - 1);
      HollowHeadBlocksAt(dbs, es, m, cap, n, k - 1);
    }
  }

  /** The episode is what its session's turns derive. */
  ghost predicate IsFresh(db: Tables, m: Mode, n: nat) {
    && n in db.nodes && db.nodes[n].mode == m && db.nodes[n].thread.Some?
    && var t := db.nodes[n].thread.value;
    && Turns(db, m, t) != {} && db.nodes[n] == SessionNode(db.raw, Turns(db, m, t), m, t)
  }

  /** Refreshed, or still stale with `hollow` and at most `waiting` others ahead of it. */
  ghost predicate Queues(db: Tables, m: Mode, n: nat, hollow: nat, waiting: int) {
    || IsFresh(db, m, n)
    || (Refreshable(db, m, n) && |HollowAhead(db, m, n)| == hollow && |WaitingAhead(db, m, n)| <= waiting)
  }

  lemma FreshStays(db: Tables, p: Pass, db': Tables, n: nat)
    requires Sound(db) && IsPass(db, p, db') && IsFresh(db, p.mode, n)
    ensures IsFresh(db', p.mode, n)
  {
    var one, two := PassIsStaged(db, p, db');
    StaleAfterSessions(db, p, one, n);
    TurnsReadRaw(db, one, p.mode, db.nodes[n].thread.value);
    TurnsReadRaw(db, db', p.mode, db.nodes[n].thread.value);
    assert RewrittenOrKept(one, p.mode, p.stale, n, two);
  }

  lemma ListedGetsFresh(db: Tables, p: Pass, db': Tables, n: nat)
    requires Sound(db) && IsPass(db, p, db') && Refreshable(db, p.mode, n) && n in p.stale
    ensures IsFresh(db', p.mode, n)
  {
    var one, two := PassIsStaged(db, p, db');
    StaleAfterSessions(db, p, one, n);
    TurnsReadRaw(db, one, p.mode, db.nodes[n].thread.value);
    TurnsReadRaw(db, db', p.mode, db.nodes[n].thread.value);
    assert RewrittenOrKept(one, p.mode, p.stale, n, two);
  }

  lemma QueueMoves(db: Tables, p: Pass, db': Tables, n: nat, hollow: nat, waiting: int)
    requires Sound(db) && IsPass(db, p, db') && Queues(db, p.mode, n, hollow, waiting)
    ensures Queues(db', p.mode, n, hollow, waiting - (p.cap - hollow))
  {
    if IsFresh(db, p.mode, n) {
      FreshStays(db, p, db', n);
    } else if n in p.stale {
      ListedGetsFresh(db, p, db', n);
    } else {
      PassAt(db, p, db', n);
      WaitingShrinks(db, p, db', n);
      HollowStays(db, p, db', n);
    }
  }

  lemma QueueMovesAt(dbs: seq<Tables>, es: seq<Event>, m: Mode, cap: nat, n: nat, k: nat, hollow: nat, waiting: int)
    requires Run(dbs, es) && k < |es| && Sound(dbs[0]) && Steady(es, m, cap)
    requires Queues(dbs[k], m, n, hollow, waiting)
    ensures Queues(dbs[k + 1], m, n, hollow, waiting - (cap - hollow))
  {
    RunKeepsSound(dbs, es, k);
    StepOf(dbs, es, k);
    assert IsPassOver(es[k], m, cap);
    QueueMoves(dbs[k], es[k].pass, dbs[k + 1], n, hollow, waiting);
  }

  /** `k` batches' worth of free places. */
  function Places(k: nat, free: nat): nat {
    if k == 0 then 0 else Places(k - 1, free) + free
  }

  lemma {:induction false} PlacesAre(k: nat, free: nat)
    ensures Places(k, free) == k * free
  {
    if k > 0 { PlacesAre(k - 1, free); }
  }

  /** After `k` passes `n` is refreshed, or that many places fewer are ahead of it. */
  lemma {:induction false} QueueDrains(dbs: seq<Tables>, es: seq<Event>, m: Mode, cap: nat, n: nat, k: nat,
                                       hollow: nat, waiting: int)
    requires Run(dbs, es) && Sound(dbs[0]) && Steady(es, m, cap) && k <= |es| && hollow <= cap
    requires Queues(dbs[0], m, n, hollow, waiting)
    ensures Queues(dbs[k], m, n, hollow, waiting - Places(k, cap - hollow))
  {
    hide Sound, Steady, Queues;
    if k > 0 {
      QueueDrains(dbs, es, m, cap, n, k - 1, hollow, waiting);
      QueueMovesAt(dbs, es, m, cap, n, k - 1, hollow, waiting - Places(k - 1, cap - hollow));
    }
  }

  lemma FreshInTime(dbs: seq<Tables>, es: seq<Event>, m: Mode, cap: nat, n: nat, hollow: nat, waiting: nat)
    requires Run(dbs, es) && Sound(dbs[0]) && Steady(es, m, cap) && Queues(dbs[0], m, n, hollow, waiting)
    requires hollow < cap && |es| * (cap - hollow) > waiting
    ensures IsFresh(dbs[|es|], m, n)
  {
    hide Sound, Steady, Queues, IsFresh;
    QueueDrains(dbs, es, m, cap, n, |es|, hollow, waiting);
    PlacesAre(|es|, cap - hollow);
    NobodyWaits(dbs[|es|], m, n, hollow, waiting - Places(|es|, cap - hollow));
  }

  lemma NobodyWaits(db: Tables, m: Mode, n: nat, hollow: nat, waiting: int)
    requires Queues(db, m, n, hollow, waiting) && waiting < 0
    ensures IsFresh(db, m, n)
  {
  }

  /** Passes over one register: a stale episode whose session still has turns ends up
      refreshed if and only if fewer than a batch of hollow episodes are listed ahead of
      it, and then as soon as the places they leave outnumber the others ahead of it. */
  lemma RefreshedIff(dbs: seq<Tables>, es: seq<Event>, m: Mode, cap: nat, n: nat)
    requires Run(dbs, es) && Sound(dbs[0]) && Steady(es, m, cap) && Refreshable(dbs[0], m, n)
    requires var h := |HollowAhead(dbs[0], m, n)|; |es| * Max(1, cap - h) > |WaitingAhead(dbs[0], m, n)|
    ensures IsFresh(dbs[|es|], m, n) <==> |HollowAhead(dbs[0], m, n)| < cap
  {
    var h, w := |HollowAhead(dbs[0], m, n)|, |WaitingAhead(dbs[0], m, n)|;
    if h < cap {
      FreshInTime(dbs, es, m, cap, n, h, w);
    } else {
      HollowHeadStarves(dbs, es, m, cap, n, |es|);
    }
  }
}
