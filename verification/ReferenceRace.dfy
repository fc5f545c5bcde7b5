/** Many writers set references at once. Each put is four separate steps - read the current
    value, stamp the event time, insert the row, mark the value read - and a writer may die
    after any of them. Steps of different writers interleave freely, with rebuilds and other
    ingests in between; nobody makes supersede claims and the clock never runs backwards. */
module ReferenceRace {
  import opened Prelude
  import opened RecordTypes
  import opened RawStore
  import opened ReferenceHistory

  datatype Writer =
    | Idle
    | HasRead(user: string, id: Identity, prior: Option<nat>)
    | HasStamped(user: string, id: Identity, prior: Option<nat>, eventTime: int)
    | HasInserted(prior: Option<nat>, row: nat)

  /** `priors` remembers, for every inserted value, what the put that wrote it had read, and
      `finished` which of these puts got to mark that. */
  datatype World = World(db: Db, writers: map<nat, Writer>, clock: int, priors: map<nat, Option<nat>>, finished: set<nat>)

  datatype Step =
    | Tick(to: int)
    | Read(w: nat, user: string, id: Identity, prior: Option<nat>)
    | Stamp(w: nat)
    | Insert(w: nat, content: string, thread: Option<string>, ingestTime: int)
    | Upsert(w: nat)
    | Die(w: nat)
    | IngestOther(user: string, d: Draft)
    | Rebuild(user: string)

  function WriterAt(s: World, w: nat): Writer {
    if w in s.writers then s.writers[w] else Idle
  }

  ghost predicate Enabled(s: World, step: Step) {
    match step
    case Tick(to) => s.clock <= to
    case Read(w, user, id, prior) => WriterAt(s, w).Idle? && IsTerminal(s.db, user, id, prior)
    case Stamp(w) => WriterAt(s, w).HasRead?
    case Insert(w, _, _, t) => WriterAt(s, w).HasStamped? && WriterAt(s, w).eventTime <= t <= s.clock
    case Upsert(w) => WriterAt(s, w).HasInserted?
    case Die(_) => true
    case IngestOther(_, d) => d.rtype != StateObject && d.supersedes.None?
    case Rebuild(_) => true
  }

  /** The inserted row: stamped earlier, stored now. */
  function InsertedRow(wr: Writer, content: string, thread: Option<string>, ingestTime: int): Record
    requires wr.HasStamped?
  {
    ToRecord(wr.user, StateDraft(wr.id, content, thread), wr.eventTime, ingestTime)
  }

  ghost function After(s: World, step: Step): World
    requires Enabled(s, step)
  {
    match step
    case Tick(to) => s.(clock := to)
    case Read(w, user, id, prior) => s.(writers := s.writers[w := HasRead(user, id, prior)])
    case Stamp(w) =>
      var wr := WriterAt(s, w);
      s.(writers := s.writers[w := HasStamped(wr.user, wr.id, wr.prior, s.clock)])
    case Insert(w, content, thread, t) =>
      var wr := WriterAt(s, w);
      s.(db := Appended(s.db, InsertedRow(wr, content, thread, t)),
         writers := s.writers[w := HasInserted(wr.prior, |s.db.raw|)],
         priors := s.priors[|s.db.raw| := wr.prior])
    case Upsert(w) =>
      var wr := WriterAt(s, w);
      s.(db := if wr.prior.Some? then s.db.(marks := s.db.marks[wr.prior.value := Mark(wr.row, Inferred)]) else s.db,
         writers := s.writers[w := Idle], finished := s.finished + {wr.row})
    case Die(w) => s.(writers := s.writers[w := Idle])
    case IngestOther(user, d) => s.(db := Ingested(s.db, user, d, s.clock, s.clock))
    case Rebuild(user) => s.(db := Rederived(s.db, user))
  }

  const START := World(EMPTY, map[], 0, map[], {})

  /** The worlds a sequence of steps passes through. */
  ghost predicate Schedule(ws: seq<World>, steps: seq<Step>) {
    && |ws| == |steps| + 1 && ws[0] == START
    && forall k :: 0 <= k < |steps| ==> Enabled(ws[k], steps[k]) && ws[k + 1] == After(ws[k], steps[k])
  }

  ghost predicate Reachable(s: World) {
    exists ws, steps :: Schedule(ws, steps) && s == ws[|steps|]
  }

  // ---------------------------------------------------------------------------
  // The invariant
  // ---------------------------------------------------------------------------

  ghost predicate Timed(raw: seq<Record>, k: nat, clock: int)
    requires k < |raw|
  {
    IsState(raw[k]) ==> raw[k].eventTime <= raw[k].ingestTime <= clock
  }

  ghost predicate IsValueOf(raw: seq<Record>, k: nat, user: string, id: Identity) {
    k < |raw| && IsState(raw[k]) && raw[k].user == user && raw[k].identity == Some(id)
  }

  /** Every mark points forward in the recompute's order, within one reference. */
  ghost predicate MarkForward(raw: seq<Record>, k: nat, next: nat) {
    k < |raw| && next < |raw| && Follows(raw, k, next)
  }

  ghost predicate WriterOk(s: World, wr: Writer) {
    match wr
    case Idle => true
    case HasRead(user, id, prior) => prior.Some? ==> IsValueOf(s.db.raw, prior.value, user, id)
    case HasStamped(user, id, prior, t) =>
      t <= s.clock &&
      (prior.Some? ==> IsValueOf(s.db.raw, prior.value, user, id) && s.db.raw[prior.value].ingestTime <= t)
    case HasInserted(prior, row) => prior.Some? ==> MarkForward(s.db.raw, prior.value, row)
  }

  ghost predicate Inv(s: World) {
    && Valid(s.db)
    && (forall k: nat :: k < |s.db.raw| ==> s.db.raw[k].supersedes.None? && Timed(s.db.raw, k, s.clock))
    && (forall k :: k in s.db.marks ==> MarkForward(s.db.raw, k, s.db.marks[k].replacement))
    && (forall w :: w in s.writers ==> WriterOk(s, s.writers[w]))
  }

  lemma ForwardSurvives(raw: seq<Record>, r: Record, k: nat, j: nat)
    requires MarkForward(raw, k, j)
    ensures MarkForward(raw + [r], k, j)
  {
  }

  lemma AppendKeepsInv(s: World, r: Record)
    requires Inv(s) && r.supersedes.None? && (IsState(r) ==> r.eventTime <= r.ingestTime <= s.clock)
    requires Valid(Appended(s.db, r))
    ensures Inv(s.(db := Appended(s.db, r)))
  {
    var s' := s.(db := Appended(s.db, r));
    forall k: nat | k < |s'.db.raw|
      ensures s'.db.raw[k].supersedes.None? && Timed(s'.db.raw, k, s.clock)
    {
      if k < |s.db.raw| { assert Timed(s.db.raw, k, s.clock); }
    }
    forall k | k in s.db.marks
      ensures MarkForward(s'.db.raw, k, s.db.marks[k].replacement)
    {
      ForwardSurvives(s.db.raw, r, k, s.db.marks[k].replacement);
    }
    forall w | w in s.writers
      ensures WriterOk(s', s.writers[w])
    {
      assert WriterOk(s, s.writers[w]);
    }
  }

  lemma InsertKeepsInv(s: World, w: nat, content: string, thread: Option<string>, t: int)
    requires Inv(s) && Enabled(s, Insert(w, content, thread, t))
    ensures Inv(After(s, Insert(w, content, thread, t)))
  {
    var wr := WriterAt(s, w);
    var r := InsertedRow(wr, content, thread, t);
    AppendKeepsValid(s.db, r);
    AppendKeepsInv(s, r);
    assert WriterOk(s, wr);
    if wr.prior.Some? {
      assert Timed(s.db.raw, wr.prior.value, s.clock);
      assert MarkForward(s.db.raw + [r], wr.prior.value, |s.db.raw|);
    }
  }

  lemma RebuiltMarksForward(db: Db, user: string)
    requires forall k: nat :: k < |db.raw| ==> db.raw[k].supersedes.None?
    requires forall k :: k in db.marks ==> MarkForward(db.raw, k, db.marks[k].replacement)
    ensures var marks := RederivedMarks(db, user);
            forall k :: k in marks ==> MarkForward(db.raw, k, marks[k].replacement)
  {
    var marks := RederivedMarks(db, user);
    forall k | k in marks
      ensures MarkForward(db.raw, k, marks[k].replacement)
    {
      NoClaimant(db.raw, k);
    }
  }

  lemma RebuildKeepsInv(s: World, user: string)
    requires Inv(s)
    ensures Inv(After(s, Rebuild(user)))
  {
    RederivedValid(s.db, user);
    RebuiltMarksForward(s.db, user);
    forall w | w in s.writers
      ensures WriterOk(After(s, Rebuild(user)), s.writers[w])
    {
      assert WriterOk(s, s.writers[w]);
    }
  }

  lemma NoClaimant(raw: seq<Record>, k: nat)
    requires forall i: nat :: i < |raw| ==> raw[i].supersedes.None?
    ensures ClaimantFrom(raw, 0, k).None?
  {
    assert forall i: nat :: i < |raw| ==> !ClaimsOver(raw, i, k);
  }

  lemma StepKeepsInv(s: World, step: Step)
    requires Inv(s) && Enabled(s, step)
    ensures Inv(After(s, step))
  {
    var s' := After(s, step);
    match step {
      case Insert(w, content, thread, t) => InsertKeepsInv(s, w, content, thread, t);
      case Rebuild(user) => RebuildKeepsInv(s, user);
      case IngestOther(user, d) =>
        IngestKeepsValid(s.db, user, d, s.clock, s.clock);
        if s'.db != s.db {
          AppendKeepsInv(s, ToRecord(user, d, s.clock, s.clock));
        }
      case Tick(to) =>
        forall k: nat | k < |s.db.raw|
          ensures Timed(s.db.raw, k, to)
        {
          assert Timed(s.db.raw, k, s.clock);
        }
        forall w | w in s.writers
          ensures WriterOk(s', s.writers[w])
        {
          assert WriterOk(s, s.writers[w]);
        }
      case Read(w, user, id, prior) => OtherWritersKept(s, s', w);
      case Stamp(w) =>
        var wr := WriterAt(s, w);
        assert WriterOk(s, wr);
        assert wr.prior.Some? ==> Timed(s.db.raw, wr.prior.value, s.clock);
        OtherWritersKept(s, s', w);
      case Upsert(w) =>
        assert WriterOk(s, WriterAt(s, w));
        OtherWritersKept(s, s', w);
      case Die(w) => OtherWritersKept(s, s', w);
    }
  }

  lemma OtherWritersKept(s: World, s': World, w: nat)
    requires Inv(s) && s'.clock == s.clock && s'.db.raw == s.db.raw
    requires w in s'.writers && s'.writers == s.writers[w := s'.writers[w]]
    ensures forall v :: v in s'.writers && v != w ==> WriterOk(s', s'.writers[v])
  {
    forall v | v in s'.writers && v != w
      ensures WriterOk(s', s'.writers[v])
    {
      assert WriterOk(s, s.writers[v]);
    }
  }

  lemma {:induction false} ScheduleKeepsInv(ws: seq<World>, steps: seq<Step>, k: nat)
    requires Schedule(ws, steps) && k <= |steps|
    ensures Inv(ws[k])
  {
    if k > 0 {
      ScheduleKeepsInv(ws, steps, k - 1);
      assert Enabled(ws[k - 1], steps[k - 1]);
      StepKeepsInv(ws[k - 1], steps[k - 1]);
    }
  }

  lemma ReachableInv(s: World)
    requires Reachable(s)
    ensures Inv(s)
  {
    var ws, steps :| Schedule(ws, steps) && s == ws[|steps|];
    ScheduleKeepsInv(ws, steps, |steps|);
  }

  // ---------------------------------------------------------------------------
  // Main results
  // ---------------------------------------------------------------------------

  lemma MarkedIsReplaced(s: World, k: nat)
    requires Inv(s) && k in s.db.marks
    ensures k < |s.db.raw| && ReplacedByTime(s.db.raw, k)
  {
    assert MarkForward(s.db.raw, k, s.db.marks[k].replacement);
  }

  /** In every reachable state of the race, a reference that has a value has a current one:
      the latest by (event time, ingest time, arrival) is never marked. */
  lemma LatestIsNeverSuperseded(s: World, k: nat)
    requires Reachable(s) && k < |s.db.raw| && IsState(s.db.raw[k])
    ensures exists t: nat :: LatestByTime(s.db.raw, t) && SameReference(s.db.raw[k], s.db.raw[t])
                             && t !in s.db.marks
  {
    ReachableInv(s);
    var t := LatestByTimeExists(s.db.raw, k, |s.db.raw|);
    assert !ReplacedByTime(s.db.raw, t);
    forall j | j in s.db.marks
      ensures j < |s.db.raw| && ReplacedByTime(s.db.raw, j)
    {
      MarkedIsReplaced(s, j);
    }
    assert LatestByTime(s.db.raw, t);
  }

  /** A rebuild heals the race: afterwards a state value of the user is current exactly when
      it is its reference's latest. */
  lemma RebuildHeals(s: World, user: string, k: nat)
    requires Reachable(s) && k < |s.db.raw| && IsState(s.db.raw[k]) && s.db.raw[k].user == user
    ensures k !in After(s, Rebuild(user)).db.marks <==> LatestByTime(s.db.raw, k)
  {
    ReachableInv(s);
    RecomputedIs(s.db.raw, k);
    NoClaimant(s.db.raw, k);
    assert !Claimed(s.db.raw, k);
  }

  /** ... and a reference has only one latest value. */
  lemma LatestIsUnique(raw: seq<Record>, j: nat, k: nat)
    requires LatestByTime(raw, j) && LatestByTime(raw, k) && SameReference(raw[j], raw[k])
    ensures j == k
  {
    assert j == k || Precedes(raw, j, k) || Precedes(raw, k, j);
    assert Precedes(raw, j, k) ==> Follows(raw, j, k);
    assert Precedes(raw, k, j) ==> Follows(raw, k, j);
  }

  lemma StartIsReachable()
    ensures Reachable(START)
  {
    assert Schedule([START], []);
  }

  lemma StepReaches(s: World, step: Step)
    requires Reachable(s) && Enabled(s, step)
    ensures Reachable(After(s, step))
  {
    var ws, steps :| Schedule(ws, steps) && s == ws[|steps|];
    var ws', steps' := ws + [After(s, step)], steps + [step];
    forall k | 0 <= k < |steps'|
      ensures Enabled(ws'[k], steps'[k]) && ws'[k + 1] == After(ws'[k], steps'[k])
    {
      if k < |steps| { assert Enabled(ws[k], steps[k]); }
    }
    assert Schedule(ws', steps') && ws'[|steps'|] == After(s, step);
  }

  /** The race is real: two writers that both read before either inserted leave two
      current values until a rebuild. */
  lemma RaceLeavesTwoCurrent(user: string, id: Identity) returns (s: World)
    ensures Reachable(s) && IsCurrent(s.db, user, id, 0) && IsCurrent(s.db, user, id, 1)
  {
    s := BothHaveStamped(user, id);
    StepReaches(s, Insert(0, "", None, 0));
    s := After(s, Insert(0, "", None, 0));
    StepReaches(s, Insert(1, "", None, 0));
    s := After(s, Insert(1, "", None, 0));
  }

  lemma BothHaveStamped(user: string, id: Identity) returns (s: World)
    ensures Reachable(s) && s.db == EMPTY && s.clock == 0
    ensures WriterAt(s, 0) == WriterAt(s, 1) == HasStamped(user, id, None, 0)
  {
    StartIsReachable();
    s := START;
    assert IsTerminal(EMPTY, user, id, None);
    StepReaches(s, Read(0, user, id, None));
    s := After(s, Read(0, user, id, None));
    StepReaches(s, Read(1, user, id, None));
    s := After(s, Read(1, user, id, None));
    StepReaches(s, Stamp(0));
    s := After(s, Stamp(0));
    StepReaches(s, Stamp(1));
    s := After(s, Stamp(1));
  }
}
