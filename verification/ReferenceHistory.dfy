/** Whole histories of the reference surface: what the marks kept one write at a time say,
    against what a recompute from raw says. Values arrive through puts, through ordinary
    ingests with an event time of the caller's choosing, and through bulk imports. */
module ReferenceHistory {
  import opened Prelude
  import opened RecordTypes
  import opened RawStore

  datatype Event =
    | Ingest(user: string, d: Draft, now: int, stored: int)
    | Import(user: string, d: Draft, now: int, stored: int)
    | Put(user: string, id: Identity, content: string, thread: Option<string>, prior: Option<nat>, now: int, stored: int)
    | Rederive(user: string)

  ghost function Apply(db: Db, e: Event): Db {
    match e
    case Ingest(user, d, now, stored) => Ingested(db, user, d, now, stored)
    case Import(user, d, now, stored) => Imported(db, user, d, now, stored)
    case Put(user, id, content, thread, prior, now, stored) => PutDone(db, user, id, content, thread, prior, now, stored)
    case Rederive(user) => Rederived(db, user)
  }

  /** One write at a time: a put marks what a read of the whole table just before it
      returned. */
  ghost predicate Allowed(db: Db, e: Event) {
    match e
    case Put(user, id, _, _, prior, _, _) => IsTerminal(db, user, id, prior)
    case _ => true
  }

  ghost function Run(h: seq<Event>): Db {
    if h == [] then EMPTY else Apply(Run(h[..|h| - 1]), h[|h| - 1])
  }

  ghost predicate History(h: seq<Event>) {
    forall k :: 0 <= k < |h| ==> Allowed(Run(h[..k]), h[k])
  }

  lemma PrefixIsHistory(h: seq<Event>)
    requires History(h) && h != []
    ensures History(h[..|h| - 1]) && Allowed(Run(h[..|h| - 1]), h[|h| - 1])
    ensures forall e :: e in h[..|h| - 1] ==> e in h
  {
    var init := h[..|h| - 1];
    forall k | 0 <= k < |init|
      ensures Allowed(Run(init[..k]), init[k])
    {
      assert init[..k] == h[..k];
      assert Allowed(Run(h[..k]), h[k]);
    }
    assert Allowed(Run(h[..|h| - 1]), h[|h| - 1]);
  }

  lemma ApplyGrows(db: Db, e: Event)
    ensures db.raw <= Apply(db, e).raw && |Apply(db, e).raw| <= |db.raw| + 1
  {
  }

  lemma {:induction false} HistoryIsValid(h: seq<Event>)
    requires History(h)
    ensures Valid(Run(h))
  {
    if h != [] {
      var db := Run(h[..|h| - 1]);
      PrefixIsHistory(h);
      HistoryIsValid(h[..|h| - 1]);
      match h[|h| - 1] {
        case Ingest(user, d, now, stored) => IngestKeepsValid(db, user, d, now, stored);
        case Import(user, d, now, stored) => ImportKeepsValid(db, user, d, now, stored);
        case Put(user, id, content, thread, prior, now, stored) =>
          PutKeepsValid(db, user, id, content, thread, prior, now, stored);
        case Rederive(user) => RederivedValid(db, user);
      }
    }
  }

  // ---------------------------------------------------------------------------
  // What each path makes of raw
  // ---------------------------------------------------------------------------

  ghost predicate Claimed(raw: seq<Record>, k: nat) {
    exists i: nat :: i < |raw| && ClaimsOver(raw, i, k)
  }

  ghost predicate ReplacedByTime(raw: seq<Record>, k: nat)
    requires k < |raw|
  {
    exists j: nat :: j < |raw| && Follows(raw, k, j)
  }

  /** One of the first `l` records, and replaced by time among them. */
  ghost predicate ReplacedWithin(raw: seq<Record>, k: nat, l: nat)
    requires k < |raw|
  {
    k < l && exists j: nat :: j < l && j < |raw| && Follows(raw, k, j)
  }

  /** How much had arrived when a user's rows were last recomputed; nothing if they never were. */
  ghost function RebuiltAt(h: seq<Event>, user: string): nat {
    if h == [] then 0
    else if h[|h| - 1] == Rederive(user) then |Run(h[..|h| - 1]).raw|
    else RebuiltAt(h[..|h| - 1], user)
  }

  lemma {:induction false} RebuiltWithin(h: seq<Event>, user: string)
    ensures RebuiltAt(h, user) <= |Run(h).raw|
  {
    if h != [] {
      RebuiltWithin(h[..|h| - 1], user);
      ApplyGrows(Run(h[..|h| - 1]), h[|h| - 1]);
    }
  }

  ghost predicate Reads(e: Event, k: nat) {
    e.Put? && e.prior == Some(k)
  }

  /** Some put since the user's last recompute read `k`. */
  ghost predicate ReadSince(h: seq<Event>, user: string, k: nat) {
    h != [] && h[|h| - 1] != Rederive(user) && (Reads(h[|h| - 1], k) || ReadSince(h[..|h| - 1], user, k))
  }

  /** The server itself took `k` off: a put read it since its user's last recompute, or that
      recompute found a later value. */
  ghost predicate Swept(h: seq<Event>, k: nat)
    requires k < |Run(h).raw|
  {
    var raw := Run(h).raw;
    ReadSince(h, raw[k].user, k) || ReplacedWithin(raw, k, RebuiltAt(h, raw[k].user))
  }

  lemma RecomputedIs(raw: seq<Record>, k: nat)
    requires k < |raw|
    ensures Recomputed(raw, k).Some? <==> Claimed(raw, k) || ReplacedByTime(raw, k)
  {
    if Claimed(raw, k) {
      var i: nat :| i < |raw| && ClaimsOver(raw, i, k);
      assert ClaimantFrom(raw, 0, k).Some?;
    } else if ReplacedByTime(raw, k) {
      var j: nat :| j < |raw| && Follows(raw, k, j);
      assert Lead(raw, k, |raw|).Some?;
    }
  }

  // ---------------------------------------------------------------------------
  // One more event
  // ---------------------------------------------------------------------------

  lemma ClaimedAfter(raw: seq<Record>, r: Record, k: nat)
    ensures Claimed(raw + [r], k) <==> Claimed(raw, k) || r.supersedes == Some(k)
  {
    if Claimed(raw, k) {
      var i: nat :| i < |raw| && ClaimsOver(raw, i, k);
      assert ClaimsOver(raw + [r], i, k);
    }
    if r.supersedes == Some(k) {
      assert ClaimsOver(raw + [r], |raw|, k);
    }
    if Claimed(raw + [r], k) {
      var i: nat :| i < |raw + [r]| && ClaimsOver(raw + [r], i, k);
      if i < |raw| { assert ClaimsOver(raw, i, k); }
    }
  }

  lemma WithinStays(raw: seq<Record>, raw': seq<Record>, k: nat, l: nat)
    requires raw <= raw' && k < |raw| && l <= |raw|
    ensures ReplacedWithin(raw', k, l) <==> ReplacedWithin(raw, k, l)
  {
    forall j: nat | j < |raw|
      ensures Follows(raw', k, j) <==> Follows(raw, k, j)
    {
      assert raw'[j] == raw[j] && raw'[k] == raw[k];
    }
  }

  lemma WithinAll(raw: seq<Record>, k: nat, l: nat)
    requires k < |raw| && l >= |raw|
    ensures ReplacedWithin(raw, k, l) <==> ReplacedByTime(raw, k)
  {
  }

  lemma {:induction false} ReadIsOld(h: seq<Event>, user: string, k: nat)
    requires History(h) && ReadSince(h, user, k)
    ensures k < |Run(h).raw|
  {
    var init := h[..|h| - 1];
    PrefixIsHistory(h);
    ApplyGrows(Run(init), h[|h| - 1]);
    if !Reads(h[|h| - 1], k) { ReadIsOld(init, user, k); }
  }

  lemma SweptAfter(h: seq<Event>, k: nat)
    requires History(h) && h != [] && k < |Run(h[..|h| - 1]).raw|
    ensures k < |Run(h).raw| && Run(h).raw[k] == Run(h[..|h| - 1]).raw[k]
    ensures var db, e := Run(h[..|h| - 1]), h[|h| - 1];
            Swept(h, k) <==> if e == Rederive(db.raw[k].user) then ReplacedByTime(db.raw, k)
                             else Swept(h[..|h| - 1], k) || Reads(e, k)
  {
    var init, e := h[..|h| - 1], h[|h| - 1];
    var db, user := Run(init), Run(init).raw[k].user;
    ApplyGrows(db, e);
    RebuiltWithin(init, user);
    if e == Rederive(user) {
      WithinAll(db.raw, k, RebuiltAt(h, user));
    } else {
      WithinStays(db.raw, Run(h).raw, k, RebuiltAt(h, user));
    }
  }

  lemma NewIsUnmarked(db: Db, e: Event)
    requires Valid(db) && Allowed(db, e) && Apply(db, e).raw != db.raw
    ensures |db.raw| !in Apply(db, e).marks
  {
  }

  lemma NewIsUnclaimed(raw: seq<Record>, k: nat)
    requires ClaimsPointBack(raw) && k + 1 == |raw|
    ensures !Claimed(raw, k)
  {
  }

  lemma NewIsUnswept(h: seq<Event>, k: nat)
    requires History(h) && h != [] && k == |Run(h[..|h| - 1]).raw| < |Run(h).raw|
    ensures !Swept(h, k)
  {
    var init, user := h[..|h| - 1], Run(h).raw[k].user;
    PrefixIsHistory(h);
    RebuiltWithin(init, user);
    if ReadSince(init, user, k) { ReadIsOld(init, user, k); }
  }

  lemma NewIsMarkedIff(h: seq<Event>, k: nat)
    requires History(h) && h != [] && k == |Run(h[..|h| - 1]).raw| < |Run(h).raw|
    ensures k !in Run(h).marks && !Claimed(Run(h).raw, k) && !Swept(h, k)
  {
    PrefixIsHistory(h);
    HistoryIsValid(h[..|h| - 1]);
    HistoryIsValid(h);
    ApplyGrows(Run(h[..|h| - 1]), h[|h| - 1]);
    NewIsUnmarked(Run(h[..|h| - 1]), h[|h| - 1]);
    NewIsUnclaimed(Run(h).raw, k);
    NewIsUnswept(h, k);
  }

  lemma OldIsMarkedIff(h: seq<Event>, k: nat)
    requires History(h) && h != [] && k < |Run(h[..|h| - 1]).raw|
    requires var init := h[..|h| - 1]; k in Run(init).marks <==> Claimed(Run(init).raw, k) || Swept(init, k)
    ensures k < |Run(h).raw| && (k in Run(h).marks <==> Claimed(Run(h).raw, k) || Swept(h, k))
  {
    var db, e := Run(h[..|h| - 1]), h[|h| - 1];
    SweptAfter(h, k);
    match e {
      case Rederive(user) => RecomputedIs(db.raw, k);
      case _ =>
        if Run(h).raw != db.raw { ClaimedAfter(db.raw, Run(h).raw[|db.raw|], k); }
    }
  }

  /** After every history a record is marked exactly when a writer claimed it, a put read it
      since its user's last recompute, or that recompute found a later value. */
  lemma {:induction false} MarkedIff(h: seq<Event>, k: nat)
    requires History(h) && k < |Run(h).raw|
    ensures k in Run(h).marks <==> Claimed(Run(h).raw, k) || Swept(h, k)
  {
    if h != [] {
      var init := h[..|h| - 1];
      PrefixIsHistory(h);
      ApplyGrows(Run(init), h[|h| - 1]);
      if k < |Run(init).raw| {
        MarkedIff(init, k);
        OldIsMarkedIff(h, k);
      } else {
        NewIsMarkedIff(h, k);
      }
    }
  }

  // ---------------------------------------------------------------------------
  // Incremental against recomputed
  // ---------------------------------------------------------------------------

  /** The superseded records of a user, as the table has them. */
  ghost predicate SameActiveSet(db: Db, user: string) {
    forall k: nat :: k < |db.raw| && db.raw[k].user == user ==>
      (k in db.marks <==> k in Rederived(db, user).marks)
  }

  /** Puts and the last recompute took off exactly what is replaced by time, claims aside. */
  ghost predicate SweptByTime(h: seq<Event>, user: string) {
    var raw := Run(h).raw;
    forall k: nat :: k < |raw| && raw[k].user == user && !Claimed(raw, k) ==> (Swept(h, k) <==> ReplacedByTime(raw, k))
  }

  /** For every history, whoever wrote the values and whatever their times: the table agrees
      with a recompute exactly when puts and rebuilds so far swept what time replaces. */
  lemma AgreementIff(h: seq<Event>, user: string)
    requires History(h)
    ensures SameActiveSet(Run(h), user) <==> SweptByTime(h, user)
  {
    var db := Run(h);
    forall k: nat | k < |db.raw| && db.raw[k].user == user
      ensures k in db.marks <==> Claimed(db.raw, k) || Swept(h, k)
      ensures k in Rederived(db, user).marks <==> Claimed(db.raw, k) || ReplacedByTime(db.raw, k)
    {
      MarkedIff(h, k);
      RecomputedIs(db.raw, k);
    }
  }

  /** The recompute reads raw only: whatever the derived table held before, the user's
      rows afterwards are the same. */
  lemma RecomputeForgetsTheTable(a: Db, b: Db, user: string, k: nat)
    requires a.raw == b.raw && k < |a.raw| && a.raw[k].user == user
    ensures Row(Rederived(a, user).marks, k) == Row(Rederived(b, user).marks, k)
    ensures Row(Rederived(a, user).links, k) == Row(Rederived(b, user).links, k)
    ensures Rederived(Rederived(a, user), user) == Rederived(a, user)
  {
    RecomputeTwice(a, user);
  }

  lemma RecomputeTwice(a: Db, user: string)
    ensures Rederived(Rederived(a, user), user) == Rederived(a, user)
  {
    var once := Rederived(a, user);
    forall i: nat | i < |a.raw|
      ensures MarkAfter(once, user, i) == MarkAfter(a, user, i)
      ensures LinkAfter(once, user, i) == LinkAfter(a, user, i)
    {
    }
    assert RederivedMarks(once, user) == once.marks;
    assert RederivedLinks(once, user) == once.links;
  }

  // ---------------------------------------------------------------------------
  // Reading back
  // ---------------------------------------------------------------------------

  /** The value `n` is the only answer a read of its reference can get. */
  ghost predicate OnlyAnswer(db: Db, user: string, id: Identity, n: nat) {
    forall t :: IsTerminal(db, user, id, t) <==> t == Some(n)
  }

  /** Every current value but the one the put read is older than the put. */
  ghost predicate OthersAreOlder(db: Db, e: Event)
    requires e.Put?
  {
    forall k: nat :: IsCurrent(db, e.user, e.id, k) && !Reads(e, k) ==> db.raw[k].eventTime < e.now
  }

  lemma CurrentAfterPut(db: Db, e: Event, k: nat)
    requires Valid(db) && e.Put? && Allowed(db, e)
    ensures IsCurrent(Apply(db, e), e.user, e.id, k) <==>
              k == |db.raw| || (IsCurrent(db, e.user, e.id, k) && !Reads(e, k))
  {
  }

  /** After a put the read that follows can only return the value just written if and only
      if every other current value of the reference is older. */
  lemma PutReadsBackIff(h: seq<Event>)
    requires History(h) && h != [] && h[|h| - 1].Put?
    ensures var e, before := h[|h| - 1], Run(h[..|h| - 1]);
            OnlyAnswer(Run(h), e.user, e.id, |before.raw|) <==> OthersAreOlder(before, e)
  {
    var e, before, after := h[|h| - 1], Run(h[..|h| - 1]), Run(h);
    PrefixIsHistory(h);
    HistoryIsValid(h[..|h| - 1]);
    forall k: nat
      ensures IsCurrent(after, e.user, e.id, k) <==> k == |before.raw| || (IsCurrent(before, e.user, e.id, k) && !Reads(e, k))
      ensures k < |before.raw| ==> after.raw[k] == before.raw[k]
    {
      CurrentAfterPut(before, e, k);
    }
    assert after.raw[|before.raw|].eventTime == e.now;
    if OnlyAnswer(after, e.user, e.id, |before.raw|) {
      OnlyAnswerIsNewest(after, e.user, e.id, |before.raw|);
    }
    if OthersAreOlder(before, e) {
      NewestIsOnlyAnswer(after, e.user, e.id, |before.raw|);
    }
  }

  ghost predicate StrictlyNewest(db: Db, user: string, id: Identity, n: nat) {
    IsCurrent(db, user, id, n) &&
    forall k: nat :: IsCurrent(db, user, id, k) && k != n ==> db.raw[k].eventTime < db.raw[n].eventTime
  }

  lemma OnlyAnswerIsNewest(db: Db, user: string, id: Identity, n: nat)
    requires OnlyAnswer(db, user, id, n)
    ensures StrictlyNewest(db, user, id, n)
  {
    assert IsTerminal(db, user, id, Some(n));
    forall k: nat | IsCurrent(db, user, id, k) && k != n
      ensures db.raw[k].eventTime < db.raw[n].eventTime
    {
      assert !IsTerminal(db, user, id, Some(k));
    }
  }

  lemma NewestIsOnlyAnswer(db: Db, user: string, id: Identity, n: nat)
    requires StrictlyNewest(db, user, id, n)
    ensures OnlyAnswer(db, user, id, n)
  {
    assert IsTerminal(db, user, id, Some(n));
    forall t | IsTerminal(db, user, id, t)
      ensures t == Some(n)
    {
    }
  }

  // ---------------------------------------------------------------------------
  // The latest value
  // ---------------------------------------------------------------------------

  ghost predicate LatestByTime(raw: seq<Record>, k: nat) {
    k < |raw| && IsState(raw[k]) && !ReplacedByTime(raw, k)
  }

  lemma {:induction false} LatestByTimeExists(raw: seq<Record>, k: nat, n: nat) returns (t: nat)
    requires k < |raw| && n <= |raw| && IsState(raw[k])
    ensures t < |raw| && SameReference(raw[k], raw[t])
    ensures t == k || Precedes(raw, k, t)
    ensures forall j: nat :: j < n && SameReference(raw[k], raw[j]) ==> j == t || Precedes(raw, j, t)
  {
    if n == 0 {
      t := k;
    } else {
      t := LatestByTimeExists(raw, k, n - 1);
      if SameReference(raw[k], raw[n - 1]) && Precedes(raw, t, n - 1) {
        t := n - 1;
      }
    }
  }

  // ---------------------------------------------------------------------------
  // Values that do not come through puts
  // ---------------------------------------------------------------------------

  /** A value sent to the ordinary ingest route with an event time of its own. */
  function ValueDraft(id: Identity, at: int): Draft {
    Draft(StateObject, "", true, Some(at), "", None, None, None, None, Some(id))
  }

  lemma TwoEvents(first: Event, second: Event)
    requires first.Ingest? && second.Ingest?
    ensures History([first, second]) && Run([first, second]) == Apply(Apply(EMPTY, first), second)
  {
    OneMore([], first);
    OneMore([first], second);
    assert [] + [first] == [first] && [first] + [second] == [first, second];
  }

  lemma ValueArrives(db: Db, user: string, id: Identity, at: int, now: int)
    ensures var db' := Apply(db, Ingest(user, ValueDraft(id, at), now, now));
            db' == Db(db.raw + [ToRecord(user, ValueDraft(id, at), now, now)], db.marks, db.links)
  {
    var raw := db.raw + [ToRecord(user, ValueDraft(id, at), now, now)];
    NamesNothing(raw, |db.raw|, |db.raw|);
  }

  function TwoValues(user: string, id: Identity, a: int, b: int): seq<Event> {
    [Ingest(user, ValueDraft(id, a), 1, 1), Ingest(user, ValueDraft(id, b), 2, 2)]
  }

  function TwoRecords(user: string, id: Identity, a: int, b: int): seq<Record> {
    [ToRecord(user, ValueDraft(id, a), 1, 1), ToRecord(user, ValueDraft(id, b), 2, 2)]
  }

  lemma TwoValuesArrive(user: string, id: Identity, a: int, b: int)
    ensures History(TwoValues(user, id, a, b))
    ensures Run(TwoValues(user, id, a, b)) == Db(TwoRecords(user, id, a, b), map[], map[])
  {
    TwoEvents(Ingest(user, ValueDraft(id, a), 1, 1), Ingest(user, ValueDraft(id, b), 2, 2));
    TwoArrive(user, id, a, b);
  }

  lemma TwoArrive(user: string, id: Identity, a: int, b: int)
    ensures Apply(Apply(EMPTY, Ingest(user, ValueDraft(id, a), 1, 1)), Ingest(user, ValueDraft(id, b), 2, 2)) ==
              Db(TwoRecords(user, id, a, b), map[], map[])
  {
    ValueArrives(EMPTY, user, id, a, 1);
    ValueArrives(Apply(EMPTY, Ingest(user, ValueDraft(id, a), 1, 1)), user, id, b, 2);
  }

  lemma SecondIsTerminal(user: string, id: Identity)
    ensures var db := Db(TwoRecords(user, id, 100, 200), map[], map[]);
            IsTerminal(db, user, id, Some(1)) && IsCurrent(db, user, id, 0)
  {
  }

  /** A put that reads one of two values dated ahead of it: the read that follows returns the
      other, not what was just written. */
  lemma PutReadsBackAnother(user: string, id: Identity)
    ensures var h := TwoValues(user, id, 100, 200) + [Put(user, id, "", None, Some(1), 3, 3)];
            History(h) && IsTerminal(Run(h), user, id, Some(0)) && !IsTerminal(Run(h), user, id, Some(2))
  {
    var two, put := TwoValues(user, id, 100, 200), Put(user, id, "", None, Some(1), 3, 3);
    TwoValuesArrive(user, id, 100, 200);
    SecondIsTerminal(user, id);
    HistoryIsValid(two);
    OneMore(two, put);
    forall k: nat
      ensures IsCurrent(Run(two + [put]), user, id, k) ==> k == 2 || k == 0
    {
      CurrentAfterPut(Run(two), put, k);
    }
    CurrentAfterPut(Run(two), put, 0);
    assert Run(two + [put]).raw[2].eventTime == 3;
  }

  lemma OneMore(h: seq<Event>, e: Event)
    requires History(h) && Allowed(Run(h), e)
    ensures History(h + [e]) && Run(h + [e]) == Apply(Run(h), e)
  {
    var all := h + [e];
    assert all[..|h|] == h;
    forall k | 0 <= k < |all|
      ensures Allowed(Run(all[..k]), all[k])
    {
      if k < |h| {
        assert all[..k] == h[..k];
        assert Allowed(Run(h[..k]), h[k]);
      }
    }
  }
}
