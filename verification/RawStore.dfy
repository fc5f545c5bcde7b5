/** The append-only raw records and the two derived tables above them: which record is
    superseded by which, and which record followed which. Ingest maintains the derived
    tables one record at a time; `RederiveEdges` recomputes a user's rows from raw alone. */
module RawStore {
  import opened Prelude
  import opened Text
  import opened RecordTypes

  datatype Identity = Identity(kind: string, key: string)

  /** A stored record. Its id is its position: arrival order, and so the order of `seq`
      among one user's records. */
  datatype Record = Record(rtype: RecordType, content: string, eventTime: int, ingestTime: int,
                           source: string, sourceRef: Option<string>, user: string, thread: Option<string>,
                           supersedes: Option<nat>, prevSourceRef: Option<string>, identity: Option<Identity>)

  /** What a writer sends. `identity` is the payload's kind and key when it has both. */
  datatype Draft = Draft(rtype: RecordType, content: string, hasPayload: bool, eventTime: Option<int>,
                         source: string, sourceRef: Option<string>, thread: Option<string>,
                         supersedes: Option<nat>, prevSourceRef: Option<string>, identity: Option<Identity>)

  datatype Error = EmptyContent | SupersedesTargetNotFound | EmptyIdentity

  datatype Origin = Writer | Inferred

  datatype Mark = Mark(replacement: nat, origin: Origin)

  datatype Db = Db(raw: seq<Record>, marks: map<nat, Mark>, links: map<nat, nat>)

  // ---------------------------------------------------------------------------
  // What the tables promise
  // ---------------------------------------------------------------------------

  /** A supersede claim names an earlier record of the same user. */
  ghost predicate ClaimsPointBack(raw: seq<Record>) {
    forall i :: 0 <= i < |raw| && raw[i].supersedes.Some? ==>
      raw[i].supersedes.value < i && raw[raw[i].supersedes.value].user == raw[i].user
  }

  predicate SameImport(r: Record, user: string, source: string, ref: Option<string>) {
    r.user == user && r.source == source && r.sourceRef == ref
  }

  /** At most one record per (user, source, source_ref). */
  ghost predicate ImportsUnique(raw: seq<Record>) {
    forall i, j :: 0 <= i < j < |raw| && raw[j].sourceRef.Some? ==>
      !SameImport(raw[i], raw[j].user, raw[j].source, raw[j].sourceRef)
  }

  ghost predicate Valid(db: Db) {
    && ClaimsPointBack(db.raw)
    && ImportsUnique(db.raw)
    && MarksOwned(db)
    && LinksOwned(db)
  }

  ghost predicate MarksOwned(db: Db) {
    forall k :: k in db.marks ==> k < |db.raw| && db.marks[k].replacement < |db.raw|
                                  && db.raw[k].user == db.raw[db.marks[k].replacement].user
  }

  ghost predicate LinksOwned(db: Db) {
    forall k :: k in db.links ==> k < |db.raw| && db.links[k] < |db.raw| && k != db.links[k]
                                  && db.raw[k].user == db.raw[db.links[k]].user
  }

  const EMPTY := Db([], map[], map[])

  // ---------------------------------------------------------------------------
  // Links
  // ---------------------------------------------------------------------------

  predicate Names(raw: seq<Record>, r: nat, q: nat)
    requires r < |raw| && q < |raw|
  {
    && q != r && raw[r].prevSourceRef.Some?
    && raw[q].user == raw[r].user && raw[q].sourceRef == raw[r].prevSourceRef
  }

  /** The records among the first `n` that record `r` names as what preceded it. */
  function Named(raw: seq<Record>, r: nat, n: nat): (ids: seq<nat>)
    requires r < |raw| && n <= |raw|
    ensures forall k :: 0 <= k < |ids| ==> ids[k] < n && Names(raw, r, ids[k])
    ensures forall k, l :: 0 <= k < l < |ids| ==> ids[k] < ids[l]
  {
    if n == 0 then []
    else Named(raw, r, n - 1) + if Names(raw, r, n - 1) then [n - 1] else []
  }

  /** Only an unambiguous claim links. */
  function Parent(raw: seq<Record>, r: nat, n: nat): Option<nat>
    requires r < |raw| && n <= |raw|
  {
    var ids := Named(raw, r, n);
    if |ids| == 1 then Some(ids[0]) else None
  }

  // ---------------------------------------------------------------------------
  // Supersession as recomputed from raw
  // ---------------------------------------------------------------------------

  predicate IsState(r: Record) {
    r.rtype == StateObject && r.identity.Some?
  }

  predicate SameReference(a: Record, b: Record) {
    IsState(a) && IsState(b) && a.user == b.user && a.identity == b.identity
  }

  /** The order of the window: event time, then ingest time, then arrival. */
  predicate Precedes(raw: seq<Record>, i: nat, j: nat)
    requires i < |raw| && j < |raw|
  {
    || raw[i].eventTime < raw[j].eventTime
    || (raw[i].eventTime == raw[j].eventTime && raw[i].ingestTime < raw[j].ingestTime)
    || (raw[i].eventTime == raw[j].eventTime && raw[i].ingestTime == raw[j].ingestTime && i < j)
  }

  predicate ClaimsOver(raw: seq<Record>, i: nat, k: nat)
    requires i < |raw|
  {
    raw[i].supersedes == Some(k)
  }

  /** The first of the records from `i` on whose writer claims to replace `k`. */
  function ClaimantFrom(raw: seq<Record>, i: nat, k: nat): (c: Option<nat>)
    requires i <= |raw|
    ensures c.Some? ==> i <= c.value < |raw| && ClaimsOver(raw, c.value, k)
    ensures c.None? ==> forall j :: i <= j < |raw| ==> !ClaimsOver(raw, j, k)
    decreases |raw| - i
  {
    if i == |raw| then None
    else if ClaimsOver(raw, i, k) then Some(i)
    else ClaimantFrom(raw, i + 1, k)
  }

  predicate Follows(raw: seq<Record>, k: nat, j: nat)
    requires k < |raw| && j < |raw|
  {
    SameReference(raw[k], raw[j]) && Precedes(raw, k, j)
  }

  /** The nearest following value of the same reference among the first `n` records. */
  function Lead(raw: seq<Record>, k: nat, n: nat): (s: Option<nat>)
    requires k < |raw| && n <= |raw|
    ensures s.None? ==> forall j :: 0 <= j < n ==> !Follows(raw, k, j)
    ensures s.Some? ==> s.value < n && Follows(raw, k, s.value)
    ensures s.Some? ==> forall j :: 0 <= j < n && Follows(raw, k, j) ==> j == s.value || Precedes(raw, s.value, j)
  {
    if n == 0 then None
    else
      var rest := Lead(raw, k, n - 1);
      if Follows(raw, k, n - 1) && (rest.None? || Precedes(raw, n - 1, rest.value)) then Some(n - 1) else rest
  }

  /** A writer's claim wins; otherwise the next value of the reference replaces this one. */
  function Recomputed(raw: seq<Record>, k: nat): Option<Mark>
    requires k < |raw|
  {
    match ClaimantFrom(raw, 0, k)
    case Some(c) => Some(Mark(c, Writer))
    case None =>
      match Lead(raw, k, |raw|)
      case Some(s) => Some(Mark(s, Inferred))
      case None => None
  }

  /** Two values of one reference, the second later by event time, then ingest time, then
      arrival. */
  ghost predicate IsLaterValue(raw: seq<Record>, k: nat, j: nat)
    requires k < |raw| && j < |raw|
  {
    && raw[k].rtype == raw[j].rtype == StateObject && raw[k].user == raw[j].user
    && raw[k].identity.Some? && raw[j].identity == raw[k].identity
    && raw[k].eventTime <= raw[j].eventTime
    && (raw[k].eventTime == raw[j].eventTime ==> raw[k].ingestTime <= raw[j].ingestTime)
    && (raw[k].eventTime == raw[j].eventTime && raw[k].ingestTime == raw[j].ingestTime ==> k < j)
  }

  lemma LaterValueIs(raw: seq<Record>, k: nat, j: nat)
    requires k < |raw| && j < |raw|
    ensures IsLaterValue(raw, k, j) <==> Follows(raw, k, j)
  {
  }

  /** What the recompute makes of `k`: the first writer's claim, or else the nearest later
      value of its reference, or nothing. */
  lemma RecomputedMarkIs(raw: seq<Record>, k: nat)
    requires k < |raw|
    ensures match Recomputed(raw, k)
            case None =>
              && (forall i :: 0 <= i < |raw| ==> raw[i].supersedes != Some(k))
              && (forall j: nat :: j < |raw| ==> !IsLaterValue(raw, k, j))
            case Some(Mark(c, Writer)) =>
              c < |raw| && raw[c].supersedes == Some(k) && forall i :: 0 <= i < c ==> raw[i].supersedes != Some(k)
            case Some(Mark(s, Inferred)) =>
              && (forall i :: 0 <= i < |raw| ==> raw[i].supersedes != Some(k))
              && s < |raw| && IsLaterValue(raw, k, s)
              && forall j: nat :: j < |raw| && IsLaterValue(raw, k, j) && j != s ==> IsLaterValue(raw, s, j)
  {
    ClaimantIsFirst(raw, 0, k);
    assert forall i :: 0 <= i < |raw| ==> (ClaimsOver(raw, i, k) <==> raw[i].supersedes == Some(k));
    forall j: nat | j < |raw|
      ensures IsLaterValue(raw, k, j) <==> Follows(raw, k, j)
    {
      LaterValueIs(raw, k, j);
    }
  }

  function MarkAfter(db: Db, user: string, k: nat): Option<Mark>
    requires k < |db.raw|
  {
    if db.raw[k].user == user then Recomputed(db.raw, k)
    else if k in db.marks then Some(db.marks[k]) else None
  }

  function LinkAfter(db: Db, user: string, k: nat): Option<nat>
    requires k < |db.raw|
  {
    if db.raw[k].user == user then Parent(db.raw, k, |db.raw|)
    else if k in db.links then Some(db.links[k]) else None
  }

  ghost function RederivedMarks(db: Db, user: string): map<nat, Mark> {
    map k: nat | k < |db.raw| && MarkAfter(db, user, k).Some? :: MarkAfter(db, user, k).value
  }

  ghost function RederivedLinks(db: Db, user: string): map<nat, nat> {
    map k: nat | k < |db.raw| && LinkAfter(db, user, k).Some? :: LinkAfter(db, user, k).value
  }

  /** One user's derived rows recomputed from raw; everyone else's left alone. */
  ghost function Rederived(db: Db, user: string): Db {
    Db(db.raw, RederivedMarks(db, user), RederivedLinks(db, user))
  }

  function Row<V>(table: map<nat, V>, k: nat): Option<V> {
    if k in table then Some(table[k]) else None
  }

  ghost predicate Within<V>(table: map<nat, V>, n: nat) {
    forall k :: k in table ==> k < n
  }

  lemma MarksAre(db: Db, user: string, marks: map<nat, Mark>)
    requires Within(marks, |db.raw|)
    requires forall k: nat :: k < |db.raw| ==> Row(marks, k) == MarkAfter(db, user, k)
    ensures marks == RederivedMarks(db, user)
  {
    var want := RederivedMarks(db, user);
    forall k: nat
      ensures k in marks <==> k in want
      ensures k in marks ==> marks[k] == want[k]
    {
      if k < |db.raw| { assert Row(marks, k) == MarkAfter(db, user, k); }
    }
  }

  lemma LinksAre(db: Db, user: string, links: map<nat, nat>)
    requires Within(links, |db.raw|)
    requires forall k: nat :: k < |db.raw| ==> Row(links, k) == LinkAfter(db, user, k)
    ensures links == RederivedLinks(db, user)
  {
    var want := RederivedLinks(db, user);
    forall k: nat
      ensures k in links <==> k in want
      ensures k in links ==> links[k] == want[k]
    {
      if k < |db.raw| { assert Row(links, k) == LinkAfter(db, user, k); }
    }
  }

  // ---------------------------------------------------------------------------
  // One record arrives
  // ---------------------------------------------------------------------------

  predicate TargetOwned(raw: seq<Record>, user: string, target: Option<nat>) {
    target.Some? ==> target.value < |raw| && raw[target.value].user == user
  }

  function ToRecord(user: string, d: Draft, now: int, stored: int): Record {
    Record(d.rtype, d.content, if d.eventTime.Some? then d.eventTime.value else now, stored,
           d.source, d.sourceRef, user, d.thread, d.supersedes, d.prevSourceRef, d.identity)
  }

  function DuplicateFrom(raw: seq<Record>, i: nat, user: string, d: Draft): (dup: Option<nat>)
    requires i <= |raw|
    ensures dup.Some? ==> i <= dup.value < |raw| && SameImport(raw[dup.value], user, d.source, d.sourceRef)
    ensures dup.None? ==> forall j :: i <= j < |raw| ==> !SameImport(raw[j], user, d.source, d.sourceRef)
    decreases |raw| - i
  {
    if i == |raw| then None
    else if SameImport(raw[i], user, d.source, d.sourceRef) then Some(i)
    else DuplicateFrom(raw, i + 1, user, d)
  }

  /** The record joins raw together with its link and the mark its claim makes. */
  function Appended(db: Db, r: Record): Db {
    var raw := db.raw + [r];
    var id := |db.raw|;
    Db(raw,
       if r.supersedes.Some? then db.marks[r.supersedes.value := Mark(id, Writer)] else db.marks,
       if Parent(raw, id, id).Some? then db.links[id := Parent(raw, id, id).value] else db.links)
  }

  function IngestOutcome(db: Db, user: string, d: Draft): Result<Option<nat>, Error> {
    if IsBlank(d.content) && !d.hasPayload then Err(EmptyContent)
    else if !TargetOwned(db.raw, user, d.supersedes) then Err(SupersedesTargetNotFound)
    else if d.sourceRef.Some? then Ok(DuplicateFrom(db.raw, 0, user, d))
    else Ok(None)
  }

  /** A rejected or repeated record changes nothing. */
  function Ingested(db: Db, user: string, d: Draft, now: int, stored: int): Db {
    match IngestOutcome(db, user, d)
    case Ok(None) => Appended(db, ToRecord(user, d, now, stored))
    case _ => db
  }

  /** A bulk import keeps what an ingest would, but resolves no link, and its rows carry no
      supersede claim. */
  function Imported(db: Db, user: string, d: Draft, now: int, stored: int): Db {
    match IngestOutcome(db, user, d.(supersedes := None))
    case Ok(None) => db.(raw := db.raw + [ToRecord(user, d.(supersedes := None), now, stored)])
    case _ => db
  }

  /** A batch, row by row; each row falls back to a clock reading of its own. */
  function ImportedAll(db: Db, user: string, ds: seq<Draft>, nows: seq<int>, stored: int): Db
    requires |nows| == |ds|
  {
    if ds == [] then db
    else
      var n := |ds| - 1;
      Imported(ImportedAll(db, user, ds[..n], nows[..n], stored), user, ds[n], nows[n], stored)
  }

  lemma ImportKeepsValid(db: Db, user: string, d: Draft, now: int, stored: int)
    requires Valid(db)
    ensures Valid(Imported(db, user, d, now, stored))
  {
  }

  /** The row holds what the writer sent, dated by the writer or else by the clock. */
  ghost predicate IsRowOf(r: Record, user: string, d: Draft, now: int, stored: int) {
    && r.rtype == d.rtype && r.content == d.content && r.user == user
    && r.source == d.source && r.sourceRef == d.sourceRef && r.thread == d.thread
    && r.supersedes == d.supersedes && r.prevSourceRef == d.prevSourceRef && r.identity == d.identity
    && (d.eventTime.Some? ==> r.eventTime == d.eventTime.value)
    && (d.eventTime.None? ==> r.eventTime == now)
    && r.ingestTime == stored
  }

  /** Something arrived: text that is not all whitespace, or a payload. */
  ghost predicate HasSubstance(d: Draft) {
    d.hasPayload || exists c :: c in d.content && !IsWhitespace(c)
  }

  ghost predicate OwnsTarget(raw: seq<Record>, user: string, d: Draft) {
    d.supersedes.Some? ==> d.supersedes.value < |raw| && raw[d.supersedes.value].user == user
  }

  /** The user already has a record under this source and source_ref. */
  ghost predicate IsResent(raw: seq<Record>, user: string, d: Draft) {
    d.sourceRef.Some? &&
    exists j :: 0 <= j < |raw| && raw[j].user == user && raw[j].source == d.source && raw[j].sourceRef == d.sourceRef
  }

  /** What arrives is stored exactly when it has substance, names no target but one of the
      user's own, and was not sent before; then the row, its mark and its link are written,
      and otherwise nothing. */
  lemma IngestedIs(db: Db, user: string, d: Draft, now: int, stored: int)
    ensures var db' := Ingested(db, user, d, now, stored);
      if HasSubstance(d) && OwnsTarget(db.raw, user, d) && !IsResent(db.raw, user, d) then
        && |db'.raw| == |db.raw| + 1 && db'.raw[..|db.raw|] == db.raw && IsRowOf(db'.raw[|db.raw|], user, d, now, stored)
        && db'.marks == (if d.supersedes.Some? then db.marks[d.supersedes.value := Mark(|db.raw|, Writer)] else db.marks)
        && (forall k :: k != |db.raw| ==> Row(db'.links, k) == Row(db.links, k))
      else db' == db
  {
    SubstanceIs(d);
    ResentIs(db.raw, user, d);
  }

  lemma SubstanceIs(d: Draft)
    ensures HasSubstance(d) <==> !(IsBlank(d.content) && !d.hasPayload)
  {
    if !IsBlank(d.content) {
      var k :| 0 <= k < |d.content| && !IsWhitespace(d.content[k]);
      assert d.content[k] in d.content;
    }
  }

  lemma ResentIs(raw: seq<Record>, user: string, d: Draft)
    ensures IsResent(raw, user, d) <==> d.sourceRef.Some? && DuplicateFrom(raw, 0, user, d).Some?
  {
  }

  /** An import stores under the same conditions, without claim, mark or link. */
  lemma ImportedIs(db: Db, user: string, d: Draft, now: int, stored: int)
    ensures var db' := Imported(db, user, d, now, stored);
      if HasSubstance(d) && !IsResent(db.raw, user, d) then
        && |db'.raw| == |db.raw| + 1 && db'.raw[..|db.raw|] == db.raw
        && IsRowOf(db'.raw[|db.raw|], user, d.(supersedes := None), now, stored)
        && db'.marks == db.marks && db'.links == db.links
      else db' == db
  {
    var bare := d.(supersedes := None);
    SubstanceIs(bare);
    ResentIs(db.raw, user, bare);
  }

  lemma IngestKeepsValid(db: Db, user: string, d: Draft, now: int, stored: int)
    requires Valid(db)
    ensures Valid(Ingested(db, user, d, now, stored))
  {
    var db' := Ingested(db, user, d, now, stored);
    if db' != db {
      var r := ToRecord(user, d, now, stored);
      AppendKeepsValid(db, r);
    }
  }

  lemma AppendKeepsValid(db: Db, r: Record)
    requires Valid(db)
    requires TargetOwned(db.raw, r.user, r.supersedes)
    requires r.sourceRef.Some? ==>
               forall j :: 0 <= j < |db.raw| ==> !SameImport(db.raw[j], r.user, r.source, r.sourceRef)
    ensures Valid(Appended(db, r))
  {
    AppendKeepsMarks(db, r);
    AppendKeepsLinks(db, r);
  }

  lemma AppendKeepsMarks(db: Db, r: Record)
    requires MarksOwned(db) && TargetOwned(db.raw, r.user, r.supersedes)
    ensures MarksOwned(Appended(db, r))
  {
  }

  lemma AppendKeepsLinks(db: Db, r: Record)
    requires LinksOwned(db)
    ensures LinksOwned(Appended(db, r))
  {
    var raw := db.raw + [r];
    var ids := Named(raw, |db.raw|, |db.raw|);
    assert |ids| == 1 ==> Names(raw, |db.raw|, ids[0]);
  }

  // ---------------------------------------------------------------------------
  // A new value for a reference
  // ---------------------------------------------------------------------------

  /** An unsuperseded value of the reference. */
  predicate IsCurrent(db: Db, user: string, id: Identity, k: nat) {
    && k < |db.raw| && k !in db.marks
    && IsState(db.raw[k]) && db.raw[k].user == user && db.raw[k].identity == Some(id)
  }

  /** A state object of the user with this kind and key. */
  ghost predicate IsOpenValue(r: Record, user: string, id: Identity) {
    r.rtype == StateObject && r.user == user && r.identity.Some? && r.identity.value.kind == id.kind && r.identity.value.key == id.key
  }

  /** An unsuperseded value with the latest event time; ties may go either way. */
  ghost predicate IsTerminal(db: Db, user: string, id: Identity, t: Option<nat>) {
    match t
    case None => forall k: nat :: !IsCurrent(db, user, id, k)
    case Some(p) =>
      && IsCurrent(db, user, id, p)
      && forall k: nat :: IsCurrent(db, user, id, k) ==> db.raw[k].eventTime <= db.raw[p].eventTime
  }

  function StateDraft(id: Identity, content: string, thread: Option<string>): Draft {
    Draft(StateObject, content, true, None, "reference", None, thread, None, None, Some(id))
  }

  /** The new value's thread falls back to the one of the value it replaces. */
  function InheritedThread(db: Db, thread: Option<string>, prior: Option<nat>): Option<string> {
    if thread.None? && prior.Some? && prior.value < |db.raw| then db.raw[prior.value].thread else thread
  }

  function PutDone(db: Db, user: string, id: Identity, content: string, thread: Option<string>,
                   prior: Option<nat>, now: int, stored: int): Db
  {
    var r := ToRecord(user, StateDraft(id, content, InheritedThread(db, thread, prior)), now, stored);
    var appended := Appended(db, r);
    if prior.Some? then appended.(marks := appended.marks[prior.value := Mark(|db.raw|, Inferred)]) else appended
  }

  /** A put appends a state value of the reference, dated by the clock, with no claim of its
      own, in the thread asked for or else that of the value it read; and it marks that value. */
  lemma PutIs(db: Db, user: string, id: Identity, content: string, thread: Option<string>,
              prior: Option<nat>, now: int, stored: int)
    requires prior.Some? ==> prior.value < |db.raw|
    ensures var db' := PutDone(db, user, id, content, thread, prior, now, stored);
      && |db'.raw| == |db.raw| + 1 && db'.raw[..|db.raw|] == db.raw
      && var r := db'.raw[|db.raw|];
      && r.rtype == StateObject && r.identity == Some(id) && r.user == user && r.content == content
      && r.eventTime == now && r.ingestTime == stored
      && r.source == "reference" && r.sourceRef.None? && r.supersedes.None? && r.prevSourceRef.None?
      && (thread.Some? ==> r.thread == thread)
      && (thread.None? ==> r.thread == if prior.Some? then db.raw[prior.value].thread else None)
      && db'.marks == (if prior.Some? then db.marks[prior.value := Mark(|db.raw|, Inferred)] else db.marks)
  {
  }

  lemma PutKeepsValid(db: Db, user: string, id: Identity, content: string, thread: Option<string>,
                      prior: Option<nat>, now: int, stored: int)
    requires Valid(db)
    requires prior.Some? ==> prior.value < |db.raw| && db.raw[prior.value].user == user
    ensures Valid(PutDone(db, user, id, content, thread, prior, now, stored))
  {
    AppendKeepsValid(db, ToRecord(user, StateDraft(id, content, InheritedThread(db, thread, prior)), now, stored));
  }

  // ---------------------------------------------------------------------------
  // The store
  // ---------------------------------------------------------------------------

  class RecordStore {
    var raw: seq<Record>
    var marks: map<nat, Mark>
    var links: map<nat, nat>

    function Now(): Db
      reads this
    {
      Db(raw, marks, links)
    }

    constructor ()
      ensures Now() == EMPTY
    {
      raw, marks, links := [], map[], map[];
    }

    /** The (user, source, source_ref) conflict a re-sent record runs into. */
    method FindDuplicate(user: string, d: Draft) returns (dup: Option<nat>)
      ensures dup == DuplicateFrom(raw, 0, user, d)
    {
      var i := 0;
      while i < |raw|
        invariant 0 <= i <= |raw|
        invariant DuplicateFrom(raw, 0, user, d) == DuplicateFrom(raw, i, user, d)
      {
        if SameImport(raw[i], user, d.source, d.sourceRef) {
          return Some(i);
        }
        i := i + 1;
      }
      return None;
    }

    /** The only one of the first `n` records that `id` names, if there is only one. */
    method ResolveParent(id: nat, n: nat) returns (prev: Option<nat>)
      requires id < |raw| && n <= |raw|
      ensures prev == Parent(raw, id, n)
    {
      if raw[id].prevSourceRef.None? {
        NamesNothing(raw, id, n);
        return None;
      }
      var ids := [];
      for q := 0 to n
        invariant ids == Named(raw, id, q)
      {
        if Names(raw, id, q) {
          ids := ids + [q];
        }
      }
      prev := if |ids| == 1 then Some(ids[0]) else None;
    }

    method Ingest(user: string, d: Draft, now: int, stored: int) returns (r: Result<nat, Error>)
      requires Valid(Now())
      modifies this
      ensures Valid(Now())
      ensures Now() == Ingested(old(Now()), user, d, now, stored)
      ensures match IngestOutcome(old(Now()), user, d)
              case Err(e) => r == Err(e)
              case Ok(Some(dup)) => r == Ok(dup)
              case Ok(None) => r == Ok(|old(raw)|)
    {
      IngestKeepsValid(Now(), user, d, now, stored);
      if IsBlank(d.content) && !d.hasPayload {
        return Err(EmptyContent);
      }
      if !TargetOwned(raw, user, d.supersedes) {
        return Err(SupersedesTargetNotFound);
      }
      if d.sourceRef.Some? {
        var dup := FindDuplicate(user, d);
        if dup.Some? {
          return Ok(dup.value);
        }
      }
      var id := Append(ToRecord(user, d, now, stored));
      r := Ok(id);
    }

    /** Blank and repeated rows are skipped, the others appended. */
    method ImportRecords(user: string, ds: seq<Draft>, nows: seq<int>, stored: int) returns (imported: nat, skipped: nat)
      requires Valid(Now()) && |nows| == |ds|
      modifies this
      ensures Valid(Now())
      ensures Now() == ImportedAll(old(Now()), user, ds, nows, stored)
      ensures |raw| == |old(raw)| + imported && imported + skipped == |ds|
    {
      ghost var db := Now();
      imported := 0;
      for k := 0 to |ds|
        invariant Valid(Now()) && imported <= k
        invariant Now() == ImportedAll(db, user, ds[..k], nows[..k], stored)
        invariant |raw| == |db.raw| + imported
      {
        assert ds[..k + 1][..k] == ds[..k] && nows[..k + 1][..k] == nows[..k];
        var taken := Import(user, ds[k], nows[k], stored);
        if taken {
          imported := imported + 1;
        }
      }
      assert ds[..|ds|] == ds && nows[..|ds|] == nows;
      skipped := |ds| - imported;
    }

    method Import(user: string, d: Draft, now: int, stored: int) returns (taken: bool)
      requires Valid(Now())
      modifies this
      ensures Valid(Now())
      ensures Now() == Imported(old(Now()), user, d, now, stored)
      ensures |raw| == |old(raw)| + if taken then 1 else 0
    {
      ImportKeepsValid(Now(), user, d, now, stored);
      if IsBlank(d.content) && !d.hasPayload {
        return false;
      }
      if d.sourceRef.Some? {
        var dup := FindDuplicate(user, d);
        if dup.Some? {
          return false;
        }
      }
      raw := raw + [ToRecord(user, d.(supersedes := None), now, stored)];
      taken := true;
    }

    /** The row, its link and the mark its claim makes, in one transaction. */
    method Append(record: Record) returns (id: nat)
      modifies this
      ensures Now() == Appended(old(Now()), record) && id == |old(raw)|
    {
      id := |raw|;
      raw := raw + [record];
      var prev := ResolveParent(id, id);
      if prev.Some? {
        links := links[id := prev.value];
      }
      if record.supersedes.Some? {
        marks := marks[record.supersedes.value := Mark(id, Writer)];
      }
    }

    method TerminalRow(user: string, id: Identity) returns (t: Option<nat>)
      ensures IsTerminal(Now(), user, id, t)
      ensures t.Some? ==> t.value < |raw| && IsOpenValue(raw[t.value], user, id) && t.value !in marks
      ensures forall k: nat :: k < |raw| && IsOpenValue(raw[k], user, id) && k !in marks ==>
                t.Some? && raw[k].eventTime <= raw[t.value].eventTime
    {
      t := None;
      for k := 0 to |raw|
        invariant t.None? ==> forall j: nat :: j < k ==> !IsCurrent(Now(), user, id, j)
        invariant t.Some? ==> IsCurrent(Now(), user, id, t.value)
        invariant t.Some? ==> forall j: nat :: j < k && IsCurrent(Now(), user, id, j) ==> raw[j].eventTime <= raw[t.value].eventTime
      {
        if IsCurrent(Now(), user, id, k) && (t.None? || raw[k].eventTime > raw[t.value].eventTime) {
          t := Some(k);
        }
      }
      forall k: nat | k < |raw| && IsOpenValue(raw[k], user, id) && k !in marks
        ensures IsCurrent(Now(), user, id, k)
      {
      }
    }

    /** Reads the current value, appends the new one, and marks the one it read. */
    method PutValue(user: string, id: Identity, content: string, thread: Option<string>, now: int, stored: int)
      returns (r: Result<nat, Error>, prior: Option<nat>)
      requires Valid(Now())
      modifies this
      ensures Valid(Now())
      ensures IsBlank(id.kind) || IsBlank(id.key) ==> r == Err(EmptyIdentity) && Now() == old(Now())
      ensures !IsBlank(id.kind) && !IsBlank(id.key) ==>
                && r == Ok(|old(raw)|)
                && IsTerminal(old(Now()), user, id, prior)
                && Now() == PutDone(old(Now()), user, id, content, thread, prior, now, stored)
    {
      prior := None;
      if IsBlank(id.kind) || IsBlank(id.key) {
        return Err(EmptyIdentity), None;
      }
      prior := TerminalRow(user, id);
      PutKeepsValid(Now(), user, id, content, thread, prior, now, stored);
      r := Ingest(user, StateDraft(id, content, InheritedThread(Now(), thread, prior)), now, stored);
      if prior.Some? {
        marks := marks[prior.value := Mark(r.value, Inferred)];
      }
    }

    /** The window function's `lead`: the nearest following value of the same reference. */
    method FindLead(k: nat) returns (s: Option<nat>)
      requires k < |raw|
      ensures s == Lead(raw, k, |raw|)
    {
      s := None;
      for j := 0 to |raw|
        invariant s == Lead(raw, k, j)
      {
        if Follows(raw, k, j) && (s.None? || Precedes(raw, j, s.value)) {
          s := Some(j);
        }
      }
    }

    /** Drops the user's derived rows and rebuilds them from raw. */
    method RederiveEdges(user: string)
      requires Valid(Now())
      modifies this
      ensures Now() == Rederived(old(Now()), user)
      ensures Valid(Now())
    {
      RederivedValid(Now(), user);
      var newLinks := RebuiltLinks(user);
      var newMarks := RebuiltMarks(user);
      links, marks := newLinks, newMarks;
    }

    method RebuiltLinks(user: string) returns (rows: map<nat, nat>)
      requires Valid(Now())
      ensures rows == RederivedLinks(Now(), user)
    {
      ghost var db := Now();
      rows := map k | k in links && raw[k].user != user :: links[k];
      for r := 0 to |raw|
        invariant LinksUpTo(db, user, rows, r)
      {
        ghost var before := rows;
        if raw[r].user == user {
          var prev := ResolveParent(r, |raw|);
          if prev.Some? {
            rows := rows[r := prev.value];
          }
        }
        LinksStep(db, user, before, r, rows);
      }
      LinksAre(db, user, rows);
    }

    /** Claims first, each only where no row is there yet. */
    method ClaimedMarks(user: string) returns (rows: map<nat, Mark>)
      requires Valid(Now())
      ensures Within(rows, |raw|)
      ensures forall k: nat :: k < |raw| ==>
                Row(rows, k) == if raw[k].user == user then ClaimMark(raw, k, |raw|) else Row(marks, k)
    {
      rows := map k | k in marks && raw[k].user != user :: marks[k];
      for c := 0 to |raw|
        invariant Within(rows, |raw|)
        invariant forall k: nat :: k < |raw| ==>
                    Row(rows, k) == if raw[k].user == user then ClaimMark(raw, k, c) else Row(marks, k)
      {
        forall k: nat
          ensures ClaimMark(raw, k, c + 1) == if ClaimMark(raw, k, c).None? && ClaimsOver(raw, c, k)
                                              then Some(Mark(c, Writer)) else ClaimMark(raw, k, c)
        {
          ClaimMarkStep(raw, k, c);
        }
        if raw[c].user == user && raw[c].supersedes.Some? && raw[c].supersedes.value !in rows {
          rows := rows[raw[c].supersedes.value := Mark(c, Writer)];
        }
      }
    }

    /** The claims, then the inferred chain where no claim speaks. */
    method RebuiltMarks(user: string) returns (rows: map<nat, Mark>)
      requires Valid(Now())
      ensures rows == RederivedMarks(Now(), user)
    {
      ghost var db := Now();
      rows := ClaimedMarks(user);
      for i := 0 to |raw|
        invariant MarksUpTo(db, user, rows, i)
      {
        ghost var before := rows;
        if raw[i].user == user && i !in rows {
          var s := FindLead(i);
          if s.Some? {
            rows := rows[i := Mark(s.value, Inferred)];
          }
        }
        MarksStep(db, user, before, i, rows);
      }
      MarksAre(db, user, rows);
    }
  }

  /** The user's links rebuilt for the records before `r`; other users' kept. */
  ghost predicate LinksUpTo(db: Db, user: string, rows: map<nat, nat>, r: nat) {
    && Within(rows, |db.raw|)
    && forall k: nat :: k < |db.raw| ==>
         Row(rows, k) == if db.raw[k].user == user && k >= r then None else LinkAfter(db, user, k)
  }

  lemma LinksStep(db: Db, user: string, rows: map<nat, nat>, r: nat, rows': map<nat, nat>)
    requires r < |db.raw| && LinksUpTo(db, user, rows, r)
    requires rows' == if db.raw[r].user == user && Parent(db.raw, r, |db.raw|).Some?
                      then rows[r := Parent(db.raw, r, |db.raw|).value] else rows
    ensures LinksUpTo(db, user, rows', r + 1)
  {
    forall k: nat | k < |db.raw|
      ensures Row(rows', k) == if db.raw[k].user == user && k >= r + 1 then None else LinkAfter(db, user, k)
    {
      assert k != r ==> Row(rows', k) == Row(rows, k);
    }
  }

  /** The claims everywhere, and the inferred chain before `i`. */
  ghost predicate MarksUpTo(db: Db, user: string, rows: map<nat, Mark>, i: nat) {
    && Within(rows, |db.raw|)
    && forall k: nat :: k < |db.raw| ==>
         Row(rows, k) == if db.raw[k].user == user && k >= i then ClaimMark(db.raw, k, |db.raw|) else MarkAfter(db, user, k)
  }

  lemma MarksStep(db: Db, user: string, rows: map<nat, Mark>, i: nat, rows': map<nat, Mark>)
    requires i < |db.raw| && MarksUpTo(db, user, rows, i)
    requires rows' == if db.raw[i].user == user && i !in rows && Lead(db.raw, i, |db.raw|).Some?
                      then rows[i := Mark(Lead(db.raw, i, |db.raw|).value, Inferred)] else rows
    ensures MarksUpTo(db, user, rows', i + 1)
  {
    forall k: nat | k < |db.raw|
      ensures Row(rows', k) == if db.raw[k].user == user && k >= i + 1 then ClaimMark(db.raw, k, |db.raw|) else MarkAfter(db, user, k)
    {
      assert Row(rows, k) == if db.raw[k].user == user && k >= i then ClaimMark(db.raw, k, |db.raw|) else MarkAfter(db, user, k);
    }
  }

  /** The mark the claims of the first `n` records put on `k`. */
  function ClaimMark(raw: seq<Record>, k: nat, n: nat): Option<Mark> {
    var c := ClaimantFrom(raw, 0, k);
    if c.Some? && c.value < n then Some(Mark(c.value, Writer)) else None
  }

  lemma {:induction false} NamesNothing(raw: seq<Record>, r: nat, n: nat)
    requires r < |raw| && n <= |raw| && raw[r].prevSourceRef.None?
    ensures Named(raw, r, n) == []
  {
    if n > 0 {
      NamesNothing(raw, r, n - 1);
    }
  }

  lemma ClaimMarkStep(raw: seq<Record>, k: nat, c: nat)
    requires c < |raw|
    ensures ClaimMark(raw, k, c + 1) == if ClaimMark(raw, k, c).None? && ClaimsOver(raw, c, k)
                                        then Some(Mark(c, Writer)) else ClaimMark(raw, k, c)
  {
    ClaimantIsFirst(raw, 0, k);
  }

  lemma {:induction false} ClaimantIsFirst(raw: seq<Record>, i: nat, k: nat)
    requires i <= |raw|
    ensures ClaimantFrom(raw, i, k).Some? ==>
              forall j :: i <= j < ClaimantFrom(raw, i, k).value ==> !ClaimsOver(raw, j, k)
    decreases |raw| - i
  {
    if i < |raw| && !ClaimsOver(raw, i, k) {
      ClaimantIsFirst(raw, i + 1, k);
    }
  }

  lemma RederivedValid(db: Db, user: string)
    requires Valid(db)
    ensures Valid(Rederived(db, user))
  {
    var marks, links := RederivedMarks(db, user), RederivedLinks(db, user);
    forall k | k in links
      ensures links[k] < |db.raw| && k != links[k] && db.raw[k].user == db.raw[links[k]].user
    {
      if db.raw[k].user == user {
        var ids := Named(db.raw, k, |db.raw|);
        assert Names(db.raw, k, ids[0]);
      }
    }
    forall k | k in marks
      ensures marks[k].replacement < |db.raw| && db.raw[k].user == db.raw[marks[k].replacement].user
    {
      if db.raw[k].user == user {
        var c := ClaimantFrom(db.raw, 0, k);
        if c.Some? {
          assert ClaimsOver(db.raw, c.value, k);
        }
      }
    }
  }
}
