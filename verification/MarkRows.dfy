/** Not only which records are marked but what the marks say: by which record, and on whose
    word. Claims are where the two paths differ - ingest keeps the last claimant, the
    recompute the first. */
module MarkRows {
  import opened Prelude
  import opened RecordTypes
  import opened RawStore
  import opened ReferenceHistory
  import opened PutHistory

  /** The last of the first `n` records that claims `k`. */
  function LastClaimant(raw: seq<Record>, k: nat, n: nat): (c: Option<nat>)
    requires n <= |raw|
    ensures c.Some? ==> c.value < n && ClaimsOver(raw, c.value, k)
    ensures forall j: nat :: j < n && ClaimsOver(raw, j, k) ==> c.Some? && j <= c.value
  {
    if n == 0 then None
    else if ClaimsOver(raw, n - 1, k) then Some(n - 1)
    else LastClaimant(raw, k, n - 1)
  }

  /** The row ingest, puts and the recompute at position `l` leave on `k`. */
  function Kept(raw: seq<Record>, k: nat, l: nat): Option<Mark>
    requires k < |raw|
  {
    var c := LastClaimant(raw, k, |raw|);
    if c.Some? && c.value >= l then Some(Mark(c.value, Writer)) else Recomputed(raw, k)
  }

  // ---------------------------------------------------------------------------
  // One more record
  // ---------------------------------------------------------------------------

  lemma {:induction false} LastClaimantStays(raw: seq<Record>, r: Record, k: nat, n: nat)
    requires n <= |raw|
    ensures LastClaimant(raw + [r], k, n) == LastClaimant(raw, k, n)
  {
    if n > 0 { LastClaimantStays(raw, r, k, n - 1); }
  }

  lemma {:induction false} FirstClaimantStays(raw: seq<Record>, r: Record, i: nat, k: nat)
    requires i <= |raw| && r.supersedes != Some(k)
    ensures ClaimantFrom(raw + [r], i, k) == ClaimantFrom(raw, i, k)
    decreases |raw| - i
  {
    if i < |raw| { FirstClaimantStays(raw, r, i + 1, k); }
  }

  lemma {:induction false} LeadStays(raw: seq<Record>, r: Record, k: nat, n: nat)
    requires k < |raw| && n <= |raw|
    ensures Lead(raw + [r], k, n) == Lead(raw, k, n)
  {
    if n > 0 { LeadStays(raw, r, k, n - 1); }
  }

  /** Under a monotone clock the nearest follower never changes. */
  lemma LeadAfter(raw: seq<Record>, r: Record, k: nat)
    requires k < |raw| && MonotoneClock(raw + [r])
    ensures Lead(raw + [r], k, |raw| + 1) ==
              if Lead(raw, k, |raw|).None? && SameReference(raw[k], r) then Some(|raw|) else Lead(raw, k, |raw|)
  {
    var raw' := raw + [r];
    LeadStays(raw, r, k, |raw|);
    if SameReference(raw[k], r) {
      assert SameReference(raw'[k], raw'[|raw|]);
      assert Follows(raw', k, |raw|);
      var s := Lead(raw, k, |raw|);
      if s.Some? {
        assert SameReference(raw'[s.value], raw'[|raw|]);
        assert Precedes(raw', s.value, |raw|);
      }
    }
  }

  lemma KeptAfterClaim(raw: seq<Record>, r: Record, k: nat, l: nat)
    requires k < |raw| && l <= |raw| && r.supersedes == Some(k)
    ensures Kept(raw + [r], k, l) == Some(Mark(|raw|, Writer))
  {
    assert ClaimsOver(raw + [r], |raw|, k);
  }

  lemma KeptAfter(raw: seq<Record>, r: Record, k: nat, l: nat)
    requires k < |raw| && l <= |raw| && r.supersedes != Some(k) && MonotoneClock(raw + [r])
    ensures Kept(raw + [r], k, l) ==
              if Kept(raw, k, l).None? && SameReference(raw[k], r) then Some(Mark(|raw|, Inferred)) else Kept(raw, k, l)
  {
    LastClaimantStays(raw, r, k, |raw|);
    FirstClaimantStays(raw, r, 0, k);
    LeadAfter(raw, r, k);
  }

  lemma KeptIffClaimedOrReplaced(raw: seq<Record>, k: nat, l: nat)
    requires k < |raw|
    ensures Kept(raw, k, l).Some? <==> Claimed(raw, k) || ReplacedByTime(raw, k)
  {
    RecomputedIs(raw, k);
  }

  lemma KeptAtRecompute(raw: seq<Record>, k: nat)
    requires k < |raw|
    ensures Kept(raw, k, |raw|) == Recomputed(raw, k)
  {
  }

  lemma ClockOfPrefix(raw: seq<Record>, raw': seq<Record>)
    requires raw <= raw' && MonotoneClock(raw')
    ensures MonotoneClock(raw)
  {
    forall i, j | 0 <= i < j < |raw| && SameReference(raw[i], raw[j])
      ensures Precedes(raw, i, j)
    {
      assert raw'[i] == raw[i] && raw'[j] == raw[j];
      assert SameReference(raw'[i], raw'[j]) && Precedes(raw', i, j);
    }
  }

  // ---------------------------------------------------------------------------
  // One more event
  // ---------------------------------------------------------------------------

  /** A put of `k`'s reference reads `k` exactly when `k` is unmarked. */
  lemma ReadIffCurrent(db: Db, e: Event, k: nat)
    requires OneAtATime(db) && e.Put? && Allowed(db, e) && k < |db.raw|
    ensures Reads(e, k) <==> k !in db.marks && SameReference(db.raw[k], Apply(db, e).raw[|db.raw|])
  {
    if k !in db.marks && SameReference(db.raw[k], Apply(db, e).raw[|db.raw|]) {
      assert IsCurrent(db, e.user, e.id, k);
      assert e.prior.Some? && IsCurrent(db, e.user, e.id, e.prior.value);
    }
  }

  lemma WriteKeepsRow(db: Db, e: Event, k: nat, l: nat)
    requires OneAtATime(db) && Allowed(db, e) && BringsNoValue(e) && !e.Rederive?
    requires k < |db.raw| && l <= |db.raw| && MonotoneClock(Apply(db, e).raw)
    requires Row(db.marks, k) == Kept(db.raw, k, l)
    ensures Row(Apply(db, e).marks, k) == Kept(Apply(db, e).raw, k, l)
  {
    var db' := Apply(db, e);
    if db'.raw != db.raw {
      var r := db'.raw[|db.raw|];
      assert db'.raw == db.raw + [r];
      if r.supersedes == Some(k) {
        KeptAfterClaim(db.raw, r, k, l);
      } else {
        KeptAfter(db.raw, r, k, l);
        if e.Put? { ReadIffCurrent(db, e, k); }
      }
    }
  }

  lemma NewHasNoRow(h: seq<Event>, k: nat, l: nat)
    requires History(h) && h != [] && k == |Run(h[..|h| - 1]).raw| < |Run(h).raw| && MonotoneClock(Run(h).raw)
    ensures Row(Run(h).marks, k) == None == Kept(Run(h).raw, k, l)
  {
    NewIsMarkedIff(h, k);
    ApplyGrows(Run(h[..|h| - 1]), h[|h| - 1]);
    KeptIffClaimedOrReplaced(Run(h).raw, k, l);
    TimeIsArrival(Run(h).raw, k);
  }

  /** The mark rows of every history of puts, claims and rebuilds under a monotone clock. */
  lemma {:induction false} RowsAre(h: seq<Event>, k: nat)
    requires History(h) && OnlyPuts(h) && MonotoneClock(Run(h).raw) && k < |Run(h).raw|
    ensures Row(Run(h).marks, k) == Kept(Run(h).raw, k, RebuiltAt(h, Run(h).raw[k].user))
  {
    if h != [] {
      var init, e := h[..|h| - 1], h[|h| - 1];
      var db, user := Run(init), Run(h).raw[k].user;
      PrefixOnlyPuts(h);
      ApplyGrows(db, e);
      ClockOfPrefix(db.raw, Run(h).raw);
      if k == |db.raw| {
        NewHasNoRow(h, k, RebuiltAt(h, user));
      } else if e == Rederive(user) {
        KeptAtRecompute(db.raw, k);
      } else {
        RowsAre(init, k);
        if !e.Rederive? {
          OneCurrent(init);
          RebuiltWithin(init, user);
          WriteKeepsRow(db, e, k, RebuiltAt(init, user));
        }
      }
    }
  }

  // ---------------------------------------------------------------------------
  // Main result
  // ---------------------------------------------------------------------------

  /** The user's mark rows, replacement and origin included. */
  ghost predicate SameRows(db: Db, user: string) {
    forall k: nat :: k < |db.raw| && db.raw[k].user == user ==> Row(db.marks, k) == Row(Rederived(db, user).marks, k)
  }

  /** No record of the user that was claimed before was claimed again since position `l`. */
  ghost predicate NoSecondClaim(raw: seq<Record>, user: string, l: nat) {
    forall k: nat, b: nat, c: nat :: k < |raw| && raw[k].user == user && ClaimedTwice(raw, k, b, c) ==> c < l
  }

  ghost predicate ClaimedTwice(raw: seq<Record>, k: nat, b: nat, c: nat) {
    b < c < |raw| && ClaimsOver(raw, b, k) && ClaimsOver(raw, c, k)
  }

  lemma KeptIsRecomputedIff(raw: seq<Record>, k: nat, l: nat)
    requires k < |raw|
    ensures Kept(raw, k, l) == Recomputed(raw, k) <==> forall b: nat, c: nat :: ClaimedTwice(raw, k, b, c) ==> c < l
  {
    ClaimantIsFirst(raw, 0, k);
    var first, last := ClaimantFrom(raw, 0, k), LastClaimant(raw, k, |raw|);
    if last.Some? && last.value >= l && first.value != last.value {
      assert ClaimedTwice(raw, k, first.value, last.value);
    }
    forall b: nat, c: nat | ClaimedTwice(raw, k, b, c) && c >= l
      ensures Kept(raw, k, l) != Recomputed(raw, k)
    {
      assert first.value <= b < c <= last.value;
    }
  }

  /** Under a monotone clock the mark rows agree with a recompute, replacement and origin
      included, if and only if since the user's last recompute no record that already had a
      claimant got another. */
  lemma RowsAgreeIff(h: seq<Event>, user: string)
    requires History(h) && OnlyPuts(h) && MonotoneClock(Run(h).raw)
    ensures SameRows(Run(h), user) <==> NoSecondClaim(Run(h).raw, user, RebuiltAt(h, user))
  {
    var db, l := Run(h), RebuiltAt(h, user);
    forall k: nat | k < |db.raw| && db.raw[k].user == user
      ensures Row(db.marks, k) == Row(Rederived(db, user).marks, k) <==>
                forall b: nat, c: nat :: ClaimedTwice(db.raw, k, b, c) ==> c < l
    {
      RowsAre(h, k);
      KeptIsRecomputedIff(db.raw, k, l);
      assert Row(Rederived(db, user).marks, k) == Recomputed(db.raw, k);
    }
  }
}
