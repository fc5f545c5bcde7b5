/** Histories in which reference values are only written through puts. There a reference has
    one current value at a time, the latest arrival, and what a recompute makes of raw is
    decided by the clock alone. */
module PutHistory {
  import opened Prelude
  import opened RecordTypes
  import opened RawStore
  import opened ReferenceHistory

  /** An ingest or an import brings no reference value. */
  ghost predicate BringsNoValue(e: Event) {
    e.Ingest? || e.Import? ==> e.d.rtype != StateObject || e.d.identity.None?
  }

  ghost predicate OnlyPuts(h: seq<Event>) {
    forall e :: e in h ==> BringsNoValue(e)
  }

  lemma PrefixOnlyPuts(h: seq<Event>)
    requires History(h) && OnlyPuts(h) && h != []
    ensures History(h[..|h| - 1]) && OnlyPuts(h[..|h| - 1])
    ensures Allowed(Run(h[..|h| - 1]), h[|h| - 1]) && BringsNoValue(h[|h| - 1])
  {
    PrefixIsHistory(h);
    assert h[|h| - 1] in h;
  }

  ghost predicate ReplacedByArrival(raw: seq<Record>, k: nat)
    requires k < |raw|
  {
    exists j: nat :: k < j < |raw| && SameReference(raw[k], raw[j])
  }

  /** A value of the same reference arrived at position `l` or later. */
  ghost predicate WrittenSince(raw: seq<Record>, k: nat, l: nat)
    requires k < |raw|
  {
    exists j: nat :: l <= j < |raw| && SameReference(raw[k], raw[j])
  }

  // ---------------------------------------------------------------------------
  // One current value
  // ---------------------------------------------------------------------------

  lemma OneByTime(raw: seq<Record>, j: nat, k: nat)
    requires j < |raw| && k < |raw| && j != k && SameReference(raw[j], raw[k])
    ensures ReplacedByTime(raw, j) || ReplacedByTime(raw, k)
  {
    assert Follows(raw, j, k) || Follows(raw, k, j);
  }

  ghost predicate OneAtATime(db: Db) {
    forall user, id, j: nat, k: nat :: IsCurrent(db, user, id, j) && IsCurrent(db, user, id, k) ==> j == k
  }

  lemma CurrentBefore(db: Db, e: Event, user: string, id: Identity, k: nat)
    requires BringsNoValue(e) && !e.Rederive? && IsCurrent(Apply(db, e), user, id, k)
    ensures (k == |db.raw| && e.Put? && e.user == user && e.id == id) || (IsCurrent(db, user, id, k) && !Reads(e, k))
  {
  }

  /** What a put did not read was not current, so nothing but its own value is afterwards. */
  lemma PutLeavesItsOwn(db: Db, e: Event, k: nat)
    requires OneAtATime(db) && e.Put? && Allowed(db, e) && IsCurrent(Apply(db, e), e.user, e.id, k)
    ensures k == |db.raw|
  {
    CurrentBefore(db, e, e.user, e.id, k);
    if e.prior.Some? { assert IsCurrent(db, e.user, e.id, e.prior.value); }
  }

  lemma WriteKeepsOne(db: Db, e: Event, user: string, id: Identity, j: nat, k: nat)
    requires OneAtATime(db) && Allowed(db, e) && BringsNoValue(e) && !e.Rederive?
    requires IsCurrent(Apply(db, e), user, id, j) && IsCurrent(Apply(db, e), user, id, k)
    ensures j == k
  {
    if e.Put? && e.user == user && e.id == id {
      PutLeavesItsOwn(db, e, j);
      PutLeavesItsOwn(db, e, k);
    } else {
      CurrentBefore(db, e, user, id, j);
      CurrentBefore(db, e, user, id, k);
    }
  }

  lemma RecomputeKeepsOne(db: Db, u: string, user: string, id: Identity, j: nat, k: nat)
    requires OneAtATime(db) && IsCurrent(Rederived(db, u), user, id, j) && IsCurrent(Rederived(db, u), user, id, k)
    ensures j == k
  {
    if u == user {
      RecomputedIs(db.raw, j);
      RecomputedIs(db.raw, k);
      if j != k { OneByTime(db.raw, j, k); }
    } else {
      assert IsCurrent(db, user, id, j) && IsCurrent(db, user, id, k);
    }
  }

  /** At most one value of a reference is unsuperseded, so the read before a put finds it. */
  lemma {:induction false} OneCurrent(h: seq<Event>)
    requires History(h) && OnlyPuts(h)
    ensures OneAtATime(Run(h))
  {
    if h != [] {
      var db, e := Run(h[..|h| - 1]), h[|h| - 1];
      PrefixOnlyPuts(h);
      OneCurrent(h[..|h| - 1]);
      forall user, id, j: nat, k: nat | IsCurrent(Apply(db, e), user, id, j) && IsCurrent(Apply(db, e), user, id, k)
        ensures j == k
      {
        if e.Rederive? {
          RecomputeKeepsOne(db, e.user, user, id, j, k);
        } else {
          WriteKeepsOne(db, e, user, id, j, k);
        }
      }
    }
  }

  /** After a put, whatever the clock did and whenever rebuilds ran, the value just written
      is the only answer the read that follows can get. */
  lemma PutReadsBack(h: seq<Event>)
    requires History(h) && OnlyPuts(h) && h != [] && h[|h| - 1].Put?
    ensures var e := h[|h| - 1]; OnlyAnswer(Run(h), e.user, e.id, |Run(h[..|h| - 1]).raw|)
  {
    var db, e := Run(h[..|h| - 1]), h[|h| - 1];
    PrefixOnlyPuts(h);
    OneCurrent(h[..|h| - 1]);
    forall k: nat
      ensures !(IsCurrent(db, e.user, e.id, k) && !Reads(e, k))
    {
      if e.prior.Some? { assert IsCurrent(db, e.user, e.id, e.prior.value); }
    }
    PutReadsBackIff(h);
  }

  // ---------------------------------------------------------------------------
  // Which value is current
  // ---------------------------------------------------------------------------

  /** What replaces a value, claims aside: in a reference written since position `l` a later
      arrival, in any other a later time. */
  ghost predicate Replaced(raw: seq<Record>, k: nat, l: nat)
    requires k < |raw|
  {
    if WrittenSince(raw, k, l) then ReplacedByArrival(raw, k) else ReplacedByTime(raw, k)
  }

  /** A put that read `k` wrote a later value of its reference. */
  lemma {:induction false} ReadIsReplaced(h: seq<Event>, k: nat) returns (j: nat)
    requires History(h) && k < |Run(h).raw| && ReadSince(h, Run(h).raw[k].user, k)
    ensures k < j < |Run(h).raw| && RebuiltAt(h, Run(h).raw[k].user) <= j
    ensures SameReference(Run(h).raw[k], Run(h).raw[j])
  {
    var init, e := h[..|h| - 1], h[|h| - 1];
    var user := Run(h).raw[k].user;
    PrefixIsHistory(h);
    ApplyGrows(Run(init), e);
    RebuiltWithin(init, user);
    if Reads(e, k) {
      j := |Run(init).raw|;
    } else {
      ReadIsOld(init, user, k);
      j := ReadIsReplaced(init, k);
    }
  }

  lemma OlderAreMarkedAfterPut(db: Db, e: Event, k: nat)
    requires Valid(db) && OneAtATime(db) && e.Put? && Allowed(db, e) && k < |db.raw|
    requires SameReference(db.raw[k], Apply(db, e).raw[|db.raw|])
    ensures k in Apply(db, e).marks
  {
    if k !in Apply(db, e).marks {
      PutLeavesItsOwn(db, e, k);
    }
  }

  /** A value whose reference was written since the recompute is marked once a later one is there. */
  lemma {:induction false} OlderAreMarked(h: seq<Event>, k: nat)
    requires History(h) && OnlyPuts(h) && k < |Run(h).raw| && ReplacedByArrival(Run(h).raw, k)
    requires WrittenSince(Run(h).raw, k, RebuiltAt(h, Run(h).raw[k].user))
    ensures k in Run(h).marks
  {
    var init, e := h[..|h| - 1], h[|h| - 1];
    var db, user := Run(init), Run(h).raw[k].user;
    PrefixOnlyPuts(h);
    ApplyGrows(db, e);
    if e.Put? && SameReference(Run(h).raw[k], Apply(db, e).raw[|db.raw|]) {
      HistoryIsValid(init);
      OneCurrent(init);
      OlderAreMarkedAfterPut(db, e, k);
    } else if e != Rederive(user) {
      WrittenBefore(db.raw, Run(h).raw, k, RebuiltAt(h, user));
      OlderAreMarked(init, k);
    }
  }

  lemma WrittenBefore(raw: seq<Record>, raw': seq<Record>, k: nat, l: nat)
    requires raw <= raw' && k < |raw'| && WrittenSince(raw', k, l) && ReplacedByArrival(raw', k)
    requires forall j: nat :: |raw| <= j < |raw'| ==> !SameReference(raw'[k], raw'[j])
    ensures k < |raw| && WrittenSince(raw, k, l) && ReplacedByArrival(raw, k)
  {
    assert SameReference(raw'[k], raw'[k]);
    var i: nat :| l <= i < |raw'| && SameReference(raw'[k], raw'[i]);
    var j: nat :| k < j < |raw'| && SameReference(raw'[k], raw'[j]);
    assert SameReference(raw[k], raw[i]) && SameReference(raw[k], raw[j]);
  }

  /** Without a write since, the last recompute's verdict still stands. */
  lemma UnwrittenKeepsVerdict(raw: seq<Record>, k: nat, l: nat)
    requires k < |raw| && !WrittenSince(raw, k, l)
    ensures ReplacedWithin(raw, k, l) <==> ReplacedByTime(raw, k)
  {
    if ReplacedByTime(raw, k) {
      var j: nat :| j < |raw| && Follows(raw, k, j);
      assert SameReference(raw[k], raw[j]) && SameReference(raw[k], raw[k]);
      assert j < l && k < l;
    }
  }

  lemma WrittenLosesVerdict(raw: seq<Record>, k: nat, l: nat)
    requires k < |raw| && WrittenSince(raw, k, l) && k < l
    ensures ReplacedByArrival(raw, k)
  {
    var j: nat :| l <= j < |raw| && SameReference(raw[k], raw[j]);
  }

  /** The marks are the claims, and every value but the one its reference keeps: the latest
      arrival if it was written since the user's last recompute, the latest by time
      otherwise. */
  ghost predicate MarksFollow(h: seq<Event>, k: nat)
    requires k < |Run(h).raw|
  {
    var raw := Run(h).raw;
    k in Run(h).marks <==> Claimed(raw, k) || Replaced(raw, k, RebuiltAt(h, raw[k].user))
  }

  lemma HistoryKeeps(h: seq<Event>, k: nat)
    requires History(h) && OnlyPuts(h) && k < |Run(h).raw|
    ensures MarksFollow(h, k)
  {
    var raw := Run(h).raw;
    var l := RebuiltAt(h, raw[k].user);
    MarkedIff(h, k);
    if ReadSince(h, raw[k].user, k) {
      var j := ReadIsReplaced(h, k);
      assert WrittenSince(raw, k, l) && ReplacedByArrival(raw, k);
    }
    if !WrittenSince(raw, k, l) {
      UnwrittenKeepsVerdict(raw, k, l);
    } else {
      if k < l { WrittenLosesVerdict(raw, k, l); }
      if ReplacedByArrival(raw, k) { OlderAreMarked(h, k); }
    }
  }

  // ---------------------------------------------------------------------------
  // The clock
  // ---------------------------------------------------------------------------

  /** The reference clock never runs backwards: state values carry event and ingest times
      in arrival order. */
  ghost predicate MonotoneClock(raw: seq<Record>) {
    forall i, j :: 0 <= i < j < |raw| && SameReference(raw[i], raw[j]) ==> Precedes(raw, i, j)
  }

  /** The times of the puts never decrease. */
  ghost predicate Ticks(h: seq<Event>) {
    forall i, j :: 0 <= i < j < |h| && h[i].Put? && h[j].Put? ==> h[i].now <= h[j].now && h[i].stored <= h[j].stored
  }

  ghost predicate TimesUpTo(raw: seq<Record>, now: int, stored: int) {
    forall k :: 0 <= k < |raw| && IsState(raw[k]) ==> raw[k].eventTime <= now && raw[k].ingestTime <= stored
  }

  lemma {:induction false} TicksGiveMonotoneClock(h: seq<Event>, now: int, stored: int)
    requires History(h) && OnlyPuts(h) && Ticks(h)
    requires forall e :: e in h && e.Put? ==> e.now <= now && e.stored <= stored
    ensures MonotoneClock(Run(h).raw) && TimesUpTo(Run(h).raw, now, stored)
  {
    if h != [] {
      var init, e := h[..|h| - 1], h[|h| - 1];
      var db := Run(init);
      PrefixOnlyPuts(h);
      if e.Put? {
        forall x | x in init && x.Put?
          ensures x.now <= e.now && x.stored <= e.stored
        {
          var k :| 0 <= k < |init| && init[k] == x;
          assert h[k] == x;
        }
        TicksGiveMonotoneClock(init, e.now, e.stored);
        LaterValueKeepsClock(db.raw, Apply(db, e).raw[|db.raw|], e.now, e.stored);
      } else {
        TicksGiveMonotoneClock(init, now, stored);
        if Apply(db, e).raw != db.raw {
          OtherRecordKeepsClock(db.raw, Apply(db, e).raw[|db.raw|], now, stored);
        }
      }
    }
  }

  lemma LaterValueKeepsClock(raw: seq<Record>, r: Record, now: int, stored: int)
    requires MonotoneClock(raw) && TimesUpTo(raw, now, stored)
    requires r.eventTime == now && r.ingestTime == stored
    ensures MonotoneClock(raw + [r]) && TimesUpTo(raw + [r], now, stored)
  {
    forall i, j | 0 <= i < j < |raw + [r]| && SameReference((raw + [r])[i], (raw + [r])[j])
      ensures Precedes(raw + [r], i, j)
    {
      if j < |raw| { assert SameReference(raw[i], raw[j]); assert Precedes(raw, i, j); }
    }
  }

  lemma OtherRecordKeepsClock(raw: seq<Record>, r: Record, now: int, stored: int)
    requires MonotoneClock(raw) && TimesUpTo(raw, now, stored) && !IsState(r)
    ensures MonotoneClock(raw + [r]) && TimesUpTo(raw + [r], now, stored)
  {
    forall i, j | 0 <= i < j < |raw + [r]| && SameReference((raw + [r])[i], (raw + [r])[j])
      ensures Precedes(raw + [r], i, j)
    {
      assert SameReference(raw[i], raw[j]) && Precedes(raw, i, j);
    }
  }

  lemma TimeIsArrival(raw: seq<Record>, k: nat)
    requires MonotoneClock(raw) && k < |raw|
    ensures ReplacedByTime(raw, k) <==> ReplacedByArrival(raw, k)
  {
    if ReplacedByArrival(raw, k) {
      var j: nat :| k < j < |raw| && SameReference(raw[k], raw[j]);
      assert Follows(raw, k, j);
    }
    if ReplacedByTime(raw, k) {
      var j: nat :| j < |raw| && Follows(raw, k, j);
      assert SameReference(raw[k], raw[j]);
      if j < k { assert Precedes(raw, j, k); }
    }
  }

  /** Incremental equals recomputed: under a monotone clock every history of puts, claims
      and rebuilds leaves exactly the superseded set a recompute from raw gives. */
  lemma IncrementalEqualsRecomputed(h: seq<Event>, user: string)
    requires History(h) && OnlyPuts(h) && MonotoneClock(Run(h).raw)
    ensures SameActiveSet(Run(h), user)
  {
    var db := Run(h);
    forall k: nat | k < |db.raw| && db.raw[k].user == user
      ensures k in db.marks <==> k in Rederived(db, user).marks
    {
      RecomputedIs(db.raw, k);
      TimeIsArrival(db.raw, k);
      HistoryKeeps(h, k);
    }
  }

  // ---------------------------------------------------------------------------
  // With a clock that may step back
  // ---------------------------------------------------------------------------

  ghost predicate LatestArrival(raw: seq<Record>, k: nat) {
    k < |raw| && IsState(raw[k]) && !ReplacedByArrival(raw, k)
  }

  /** The two orders pick the same current value for every reference of the user written
      since position `l`, unless writers claimed both picks away. */
  ghost predicate ClockAgrees(raw: seq<Record>, user: string, l: nat) {
    forall a: nat, t: nat :: Rivals(raw, user, a, t) && WrittenSince(raw, a, l) ==> Claimed(raw, a) && Claimed(raw, t)
  }

  /** One reference of the user, two picks. */
  ghost predicate Rivals(raw: seq<Record>, user: string, a: nat, t: nat) {
    && LatestArrival(raw, a) && LatestByTime(raw, t) && a != t
    && raw[a].user == user && SameReference(raw[a], raw[t])
  }

  lemma {:induction false} LatestArrivalExists(raw: seq<Record>, k: nat, n: nat) returns (a: nat)
    requires k < n <= |raw| && IsState(raw[k])
    ensures k <= a < n && SameReference(raw[k], raw[a])
    ensures forall j: nat :: a < j < n ==> !SameReference(raw[k], raw[j])
  {
    if n - 1 == k || SameReference(raw[k], raw[n - 1]) {
      a := n - 1;
    } else {
      a := LatestArrivalExists(raw, k, n - 1);
    }
  }

  lemma SameWritten(raw: seq<Record>, j: nat, k: nat, l: nat)
    requires j < |raw| && k < |raw| && SameReference(raw[j], raw[k]) && WrittenSince(raw, j, l)
    ensures WrittenSince(raw, k, l)
  {
    var i: nat :| l <= i < |raw| && SameReference(raw[j], raw[i]);
    assert SameReference(raw[k], raw[i]);
  }

  lemma AgreeAt(raw: seq<Record>, user: string, k: nat, l: nat)
    requires ClockAgrees(raw, user, l) && k < |raw| && raw[k].user == user && IsState(raw[k])
    ensures Claimed(raw, k) || (Replaced(raw, k, l) <==> ReplacedByTime(raw, k))
  {
    var a := LatestArrivalExists(raw, k, |raw|);
    var t := LatestByTimeExists(raw, k, |raw|);
    assert !ReplacedByArrival(raw, a);
    assert !ReplacedByTime(raw, t);
    assert SameReference(raw[a], raw[t]);
    if WrittenSince(raw, k, l) { SameWritten(raw, k, a, l); }
    if k != a {
      assert ReplacedByArrival(raw, k);
    }
    if k != t {
      assert Follows(raw, k, t);
      assert ReplacedByTime(raw, k);
    }
    assert a != t ==> Rivals(raw, user, a, t);
  }

  lemma RivalsDisagree(h: seq<Event>, user: string, a: nat, t: nat)
    requires History(h) && OnlyPuts(h) && SameActiveSet(Run(h), user)
    requires Rivals(Run(h).raw, user, a, t) && WrittenSince(Run(h).raw, a, RebuiltAt(h, user))
    ensures Claimed(Run(h).raw, a) && Claimed(Run(h).raw, t)
  {
    var db := Run(h);
    HistoryKeeps(h, a);
    HistoryKeeps(h, t);
    RecomputedIs(db.raw, a);
    RecomputedIs(db.raw, t);
    SameWritten(db.raw, a, t, RebuiltAt(h, user));
    assert SameReference(db.raw[t], db.raw[a]);
    assert ReplacedByArrival(db.raw, t);
    assert Follows(db.raw, t, a) || Follows(db.raw, a, t);
    assert ReplacedByTime(db.raw, a);
    assert t in db.marks && a in RederivedMarks(db, user);
  }

  /** With a clock that may step back, the two paths agree exactly when, for every reference
      written since the user's last recompute, the latest arrival is also the latest by
      time, or writers claimed both. */
  lemma ClockAgreesIff(h: seq<Event>, user: string)
    requires History(h) && OnlyPuts(h)
    ensures SameActiveSet(Run(h), user) <==> ClockAgrees(Run(h).raw, user, RebuiltAt(h, user))
  {
    var db, l := Run(h), RebuiltAt(h, user);
    if SameActiveSet(db, user) {
      forall a: nat, t: nat | Rivals(db.raw, user, a, t) && WrittenSince(db.raw, a, l)
        ensures Claimed(db.raw, a) && Claimed(db.raw, t)
      {
        RivalsDisagree(h, user, a, t);
      }
    }
    if ClockAgrees(db.raw, user, l) {
      forall k: nat | k < |db.raw| && db.raw[k].user == user
        ensures k in db.marks <==> k in Rederived(db, user).marks
      {
        RecomputedIs(db.raw, k);
        HistoryKeeps(h, k);
        if IsState(db.raw[k]) { AgreeAt(db.raw, user, k, l); }
      }
    }
  }

  /** A put stamped before the value it replaces: raw then says the older arrival is
      current, the incremental marks say the newer one is. */
  lemma ClockStepBackDisagrees(user: string, id: Identity)
    ensures var h := [Put(user, id, "", None, None, 5, 5), Put(user, id, "", None, Some(0), 3, 6)];
            History(h) && OnlyPuts(h) && !SameActiveSet(Run(h), user)
  {
    var first, second := Put(user, id, "", None, None, 5, 5), Put(user, id, "", None, Some(0), 3, 6);
    assert IsTerminal(EMPTY, user, id, None);
    OneMore([], first);
    var one := Run([] + [first]);
    assert one == Apply(EMPTY, first) && IsCurrent(one, user, id, 0);
    assert IsTerminal(one, user, id, Some(0));
    OneMore([] + [first], second);
    assert [] + [first] + [second] == [first, second];
    StepBackMarks(one, second, user, id);
  }

  lemma StepBackMarks(one: Db, second: Event, user: string, id: Identity)
    requires |one.raw| == 1 && one.raw[0].eventTime == 5 && one.marks == map[] && IsCurrent(one, user, id, 0)
    requires second == Put(user, id, "", None, Some(0), 3, 6)
    ensures !SameActiveSet(Apply(one, second), user)
  {
    var two := Apply(one, second);
    assert |two.raw| == 2 && two.raw[0] == one.raw[0] && two.raw[1].eventTime == 3;
    assert two.marks == map[0 := Mark(1, Inferred)];
    assert Follows(two.raw, 1, 0);
    RecomputedIs(two.raw, 1);
    assert ReplacedByTime(two.raw, 1);
    assert two.raw[1].user == user && 1 !in two.marks && 1 in RederivedMarks(two, user);
  }

  /** Two values with advancing times, neither through a put: nothing marks the first, and a
      recompute would. A monotone clock is not enough when values come another way. */
  lemma IngestedValuesDisagree(user: string, id: Identity)
    ensures var h := TwoValues(user, id, 1, 2); History(h) && MonotoneClock(Run(h).raw) && !SameActiveSet(Run(h), user)
  {
    TwoValuesArrive(user, id, 1, 2);
    var db := Run(TwoValues(user, id, 1, 2));
    assert Follows(db.raw, 0, 1);
    RecomputedIs(db.raw, 0);
    assert ReplacedByTime(db.raw, 0);
    assert 0 in RederivedMarks(db, user);
  }
}
