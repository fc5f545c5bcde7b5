/** Promotion: how raw records become episodes, a batch at a time, and why the result is
    what a wipe and re-promotion would give.

    One user's records. Turns of a conversation share one episode per (register, thread);
    documents and threadless turns stand alone. A pass promotes new sessions, refreshes
    sessions whose turn count changed, and promotes standalone rows, each up to a cap. */
module Episodes {
  import opened Prelude
  import opened Text
  import opened RecordTypes
  import opened Batches

  type Mode = Option<string>

  /** A raw record as promotion reads it; its id is its arrival position. Thread ids are
      numbered in collation order. */
  datatype Row = Row(rtype: RecordType, thread: Option<nat>, mode: Mode, content: string,
                     eventTime: int, ingestTime: int, source: string)

  /** An episodic node: `thread` and `turns` come from its meta, `raws` are its
      `derived_from` edges. A node whose meta was never written has no thread. */
  datatype Node = Node(mode: Mode, thread: Option<nat>, turns: nat, content: string, eventTime: int, raws: set<nat>)

  datatype Tables = Tables(raw: seq<Row>, gone: set<nat>, nodes: map<nat, Node>, next: nat)

  const CONTENT_BUDGET := 4000

  // ---------------------------------------------------------------------------
  // Transcripts
  // ---------------------------------------------------------------------------

  function Speaker(source: string): string {
    if source == "" then ""
    else if source[|source| - 1] == ':' then ""
    else Speaker(source[..|source| - 1]) + [source[|source| - 1]]
  }

  function Line(r: Row): string {
    Speaker(r.source) + ": " + Trim(r.content) + "\n"
  }

  /** What follows the last colon, or everything when there is none. */
  ghost predicate IsLabel(source: string, name: string) {
    ':' !in name && exists origin :: source == origin + name && (origin == "" || origin[|origin| - 1] == ':')
  }

  lemma {:induction false} SpeakerIs(source: string)
    ensures IsLabel(source, Speaker(source))
  {
    if source == "" {
      assert source == "" + "";
    } else if source[|source| - 1] == ':' {
      assert source == source + "";
    } else {
      var init, last := source[..|source| - 1], source[|source| - 1];
      SpeakerIs(init);
      var origin :| init == origin + Speaker(init) && (origin == "" || origin[|origin| - 1] == ':');
      assert source == origin + (Speaker(init) + [last]);
    }
  }

  /** The turn's line: who speaks, then what is said. */
  ghost predicate IsLineOf(r: Row, line: string) {
    exists name, body :: IsLabel(r.source, name) && IsTrimmed(r.content, body) && line == name + ": " + body + "\n"
  }

  lemma LineIs(r: Row)
    ensures IsLineOf(r, Line(r))
  {
    SpeakerIs(r.source);
    TrimIs(r.content);
  }

  /** Whole lines while they fit the budget, then an ellipsis. */
  function Rendered(out: string, turns: seq<Row>): string
    decreases turns
  {
    if turns == [] then out
    else if |out| + |Line(turns[0])| > CONTENT_BUDGET then out + ['\U{2026}']
    else Rendered(out + Line(turns[0]), turns[1..])
  }

  /** A transcript stays within its budget and one ellipsis. */
  lemma {:induction false} TranscriptFits(out: string, turns: seq<Row>)
    requires |out| <= CONTENT_BUDGET
    ensures |Rendered(out, turns)| <= CONTENT_BUDGET + 1
    decreases turns
  {
    if turns != [] && |out| + |Line(turns[0])| <= CONTENT_BUDGET {
      TranscriptFits(out + Line(turns[0]), turns[1..]);
    }
  }

  function LinesOf(turns: seq<Row>): (lines: seq<string>)
    ensures |lines| == |turns|
  {
    seq(|turns|, k requires 0 <= k < |turns| => Line(turns[k]))
  }

  /** `text` is `out` and the first `k` lines, as many as fit, with an ellipsis exactly when
      that is not all of them. */
  ghost predicate IsCutAt(budget: nat, out: string, lines: seq<string>, k: nat, text: string) {
    && k <= |lines|
    && text == out + Concat(lines[..k]) + (if k < |lines| then ['\U{2026}'] else "")
    && |out + Concat(lines[..k])| <= budget
    && forall j :: k < j <= |lines| ==> |out + Concat(lines[..j])| > budget
  }

  lemma NothingFits(out: string, lines: seq<string>)
    requires lines != [] && |out| <= CONTENT_BUDGET && |out| + |lines[0]| > CONTENT_BUDGET
    ensures IsCutAt(CONTENT_BUDGET, out, lines, 0, out + ['\U{2026}'])
  {
    assert lines[..1] == [lines[0]] && [lines[0]][..0] == [];
    forall j | 0 < j <= |lines|
      ensures |out + Concat(lines[..j])| > CONTENT_BUDGET
    {
      ConcatGrows(lines, 1, j);
    }
  }

  lemma OneMoreFits(out: string, lines: seq<string>, k: nat, text: string)
    requires lines != [] && IsCutAt(CONTENT_BUDGET, out + lines[0], lines[1..], k, text)
    ensures IsCutAt(CONTENT_BUDGET, out, lines, k + 1, text)
  {
    forall j | 0 < j <= |lines|
      ensures out + Concat(lines[..j]) == out + lines[0] + Concat(lines[1..][..j - 1])
    {
      ConcatFront(lines[0], lines[1..][..j - 1]);
      assert lines[..j] == [lines[0]] + lines[1..][..j - 1];
    }
    assert k < |lines[1..]| <==> k + 1 < |lines|;
  }

  lemma {:induction false} RenderedIs(out: string, turns: seq<Row>) returns (k: nat)
    requires |out| <= CONTENT_BUDGET
    ensures IsCutAt(CONTENT_BUDGET, out, LinesOf(turns), k, Rendered(out, turns))
    decreases turns
  {
    var lines := LinesOf(turns);
    if turns == [] {
      k := 0;
    } else if |out| + |Line(turns[0])| > CONTENT_BUDGET {
      k := 0;
      NothingFits(out, lines);
    } else {
      var rest := RenderedIs(out + Line(turns[0]), turns[1..]);
      k := rest + 1;
      assert LinesOf(turns[1..]) == lines[1..];
      OneMoreFits(out, lines, rest, Rendered(out, turns));
    }
  }

  ghost predicate LinesAre(turns: seq<Row>, lines: seq<string>) {
    |lines| == |turns| && forall k :: 0 <= k < |turns| ==> IsLineOf(turns[k], lines[k])
  }

  /** One line per turn - who speaks, a colon, what is said - as many whole lines as 4000
      characters hold, and an ellipsis exactly when a line was dropped. */
  ghost predicate IsTranscript(turns: seq<Row>, text: string) {
    exists lines: seq<string>, k: nat :: LinesAre(turns, lines) && IsCutAt(4000, "", lines, k, text)
  }

  lemma TranscriptIsLongest(turns: seq<Row>)
    ensures IsTranscript(turns, Rendered("", turns))
  {
    var k := RenderedIs("", turns);
    forall j | 0 <= j < |turns|
      ensures IsLineOf(turns[j], LinesOf(turns)[j])
    {
      LineIs(turns[j]);
    }
  }

  predicate Earlier(raw: seq<Row>, i: nat, j: nat)
    requires i < |raw| && j < |raw|
  {
    || raw[i].eventTime < raw[j].eventTime
    || (raw[i].eventTime == raw[j].eventTime && raw[i].ingestTime < raw[j].ingestTime)
    || (raw[i].eventTime == raw[j].eventTime && raw[i].ingestTime == raw[j].ingestTime && i < j)
  }

  function Inserted(raw: seq<Row>, s: seq<nat>, i: nat): (t: seq<nat>)
    requires i < |raw| && forall k :: 0 <= k < |s| ==> s[k] < |raw|
    ensures |t| == |s| + 1 && forall k :: 0 <= k < |t| ==> t[k] < |raw|
  {
    if s == [] then [i]
    else if Earlier(raw, i, s[|s| - 1]) then Inserted(raw, s[..|s| - 1], i) + [s[|s| - 1]]
    else s + [i]
  }

  /** The members of `ids` below `n`, by event time, then ingest time, then arrival. */
  function Ordered(raw: seq<Row>, ids: set<nat>, n: nat): (t: seq<nat>)
    requires n <= |raw|
    ensures forall k :: 0 <= k < |t| ==> t[k] < |raw|
  {
    if n == 0 then []
    else if n - 1 in ids then Inserted(raw, Ordered(raw, ids, n - 1), n - 1)
    else Ordered(raw, ids, n - 1)
  }

  ghost predicate InOrder(raw: seq<Row>, t: seq<nat>)
    requires forall k :: 0 <= k < |t| ==> t[k] < |raw|
  {
    forall j, k :: 0 <= j < k < |t| ==> Earlier(raw, t[j], t[k])
  }

  lemma {:induction false} InsertedKeepsOrder(raw: seq<Row>, s: seq<nat>, i: nat)
    requires i < |raw| && (forall k :: 0 <= k < |s| ==> s[k] < |raw|)
    requires InOrder(raw, s) && i !in s
    ensures InOrder(raw, Inserted(raw, s, i))
    ensures forall x: nat :: x in Inserted(raw, s, i) <==> x in s || x == i
  {
    if s != [] && Earlier(raw, i, s[|s| - 1]) {
      var init, last := s[..|s| - 1], s[|s| - 1];
      InsertedKeepsOrder(raw, init, i);
      var t := Inserted(raw, init, i);
      assert Inserted(raw, s, i) == t + [last];
      forall k | 0 <= k < |t|
        ensures Earlier(raw, t[k], last)
      {
        assert t[k] in t;
      }
      assert s == init + [last];
    } else if s != [] {
      var t := s + [i];
      forall j | 0 <= j < |s|
        ensures Earlier(raw, s[j], i)
      {
        assert j < |s| - 1 ==> Earlier(raw, s[j], s[|s| - 1]);
        assert s[|s| - 1] != i;
      }
    }
  }

  /** Exactly the given turns, each once, in transcript order. */
  lemma {:induction false} OrderedIs(raw: seq<Row>, ids: set<nat>, n: nat)
    requires n <= |raw|
    ensures InOrder(raw, Ordered(raw, ids, n))
    ensures forall x: nat :: x in Ordered(raw, ids, n) <==> x in ids && x < n
  {
    if n > 0 {
      OrderedIs(raw, ids, n - 1);
      var s := Ordered(raw, ids, n - 1);
      assert n - 1 !in s;
      if n - 1 in ids {
        InsertedKeepsOrder(raw, s, n - 1);
      }
    }
  }

  /** In transcript order: by event time, then by ingest time, then by arrival. */
  lemma OrderIs(raw: seq<Row>, ids: set<nat>, n: nat, j: nat, k: nat)
    requires n <= |raw| && j < k < |Ordered(raw, ids, n)|
    ensures var a, b := Ordered(raw, ids, n)[j], Ordered(raw, ids, n)[k];
            && raw[a].eventTime <= raw[b].eventTime
            && (raw[a].eventTime == raw[b].eventTime ==> raw[a].ingestTime <= raw[b].ingestTime)
            && (raw[a].eventTime == raw[b].eventTime && raw[a].ingestTime == raw[b].ingestTime ==> a < b)
  {
    OrderedIs(raw, ids, n);
    assert Earlier(raw, Ordered(raw, ids, n)[j], Ordered(raw, ids, n)[k]);
  }

  lemma {:induction false} InsertedStable(raw: seq<Row>, more: seq<Row>, s: seq<nat>, i: nat)
    requires i < |raw| && forall k :: 0 <= k < |s| ==> s[k] < |raw|
    ensures Inserted(raw + more, s, i) == Inserted(raw, s, i)
  {
    if s != [] {
      InsertedStable(raw, more, s[..|s| - 1], i);
    }
  }

  lemma {:induction false} OrderedStable(raw: seq<Row>, more: seq<Row>, ids: set<nat>, n: nat)
    requires n <= |raw|
    ensures Ordered(raw + more, ids, n) == Ordered(raw, ids, n)
  {
    if n > 0 {
      OrderedStable(raw, more, ids, n - 1);
      if n - 1 in ids {
        InsertedStable(raw, more, Ordered(raw, ids, n - 1), n - 1);
      }
    }
  }

  lemma {:induction false} OrderedTail(raw: seq<Row>, ids: set<nat>, m: nat, n: nat)
    requires m <= n <= |raw| && forall x :: x in ids ==> x < m
    ensures Ordered(raw, ids, n) == Ordered(raw, ids, m)
  {
    if m < n {
      OrderedTail(raw, ids, m, n - 1);
    }
  }

  function Pick(raw: seq<Row>, s: seq<nat>): (rows: seq<Row>)
    requires forall k :: 0 <= k < |s| ==> s[k] < |raw|
    ensures |rows| == |s|
  {
    seq(|s|, k requires 0 <= k < |s| => raw[s[k]])
  }

  // ---------------------------------------------------------------------------
  // What an episode is
  // ---------------------------------------------------------------------------

  predicate IsTurn(raw: seq<Row>, m: Mode, t: nat, i: nat) {
    i < |raw| && raw[i].rtype == Conversation && raw[i].thread == Some(t) && raw[i].mode == m
  }

  predicate IsStandalone(raw: seq<Row>, i: nat) {
    i < |raw| && (raw[i].rtype == Document || (raw[i].rtype == Conversation && raw[i].thread.None?))
  }

  /** The active turns of a session. */
  function Turns(db: Tables, m: Mode, t: nat): set<nat> {
    set i: nat | i < |db.raw| && IsTurn(db.raw, m, t, i) && i !in db.gone
  }

  /** The episode a session's turns derive. */
  function SessionNode(raw: seq<Row>, turns: set<nat>, m: Mode, t: nat): Node {
    var order := Ordered(raw, turns, |raw|);
    Node(m, Some(t), |turns|, Rendered("", Pick(raw, order)),
         if order == [] then 0 else raw[order[0]].eventTime, turns)
  }

  function SoloNode(raw: seq<Row>, i: nat): Node
    requires i < |raw|
  {
    Node(raw[i].mode, None, 0, raw[i].content, raw[i].eventTime, {i})
  }

  /** What an episode says: the transcript of its turns in chronological order, dated by the
      first of them. */
  lemma EpisodeIs(raw: seq<Row>, turns: set<nat>, m: Mode, t: nat) returns (order: seq<nat>)
    requires turns != {} && forall i :: i in turns ==> i < |raw|
    ensures forall i: nat :: i in order <==> i in turns
    ensures forall k :: 0 <= k < |order| ==> order[k] < |raw|
    ensures forall j, k :: 0 <= j < k < |order| ==> order[j] != order[k] && raw[order[j]].eventTime <= raw[order[k]].eventTime
    ensures var node := SessionNode(raw, turns, m, t);
            && node.mode == m && node.thread == Some(t) && node.turns == |turns| && node.raws == turns
            && IsTranscript(Pick(raw, order), node.content)
            && order != [] && node.eventTime == raw[order[0]].eventTime
  {
    order := Ordered(raw, turns, |raw|);
    OrderedIs(raw, turns, |raw|);
    TranscriptIsLongest(Pick(raw, order));
    var i :| i in turns;
    assert i in order;
    forall j, k | 0 <= j < k < |order|
      ensures order[j] != order[k] && raw[order[j]].eventTime <= raw[order[k]].eventTime
    {
      OrderIs(raw, turns, |raw|, j, k);
      assert Earlier(raw, order[j], order[k]);
    }
  }

  lemma SessionNodeStable(raw: seq<Row>, more: seq<Row>, turns: set<nat>, m: Mode, t: nat)
    requires forall x :: x in turns ==> x < |raw|
    ensures SessionNode(raw + more, turns, m, t) == SessionNode(raw, turns, m, t)
  {
    OrderedTail(raw + more, turns, |raw|, |raw + more|);
    OrderedStable(raw, more, turns, |raw|);
    var order := Ordered(raw, turns, |raw|);
    assert Pick(raw + more, order) == Pick(raw, order);
  }

  // ---------------------------------------------------------------------------
  // What a pass still has to do
  // ---------------------------------------------------------------------------

  predicate HasSession(db: Tables, m: Mode, t: nat) {
    exists n :: n in db.nodes && db.nodes[n].mode == m && db.nodes[n].thread == Some(t)
  }

  predicate IsCovered(db: Tables, i: nat) {
    exists n :: n in db.nodes && i in db.nodes[n].raws
  }

  predicate IsPendingTurn(db: Tables, m: Mode, i: nat) {
    && i < |db.raw| && i !in db.gone
    && db.raw[i].rtype == Conversation && db.raw[i].thread.Some? && db.raw[i].mode == m
    && !HasSession(db, m, db.raw[i].thread.value)
  }

  /** Threads with an active turn and no episode. */
  function PendingSessions(db: Tables, m: Mode): set<nat> {
    set i: nat | i < |db.raw| && IsPendingTurn(db, m, i) :: if db.raw[i].thread.Some? then db.raw[i].thread.value else 0
  }

  predicate IsStale(db: Tables, m: Mode, n: nat) {
    && n in db.nodes && db.nodes[n].mode == m && db.nodes[n].thread.Some?
    && db.nodes[n].turns != |Turns(db, m, db.nodes[n].thread.value)|
  }

  /** Episodes whose recorded turn count is not the current one. */
  function StaleEpisodes(db: Tables, m: Mode): set<nat> {
    set n | n in db.nodes && IsStale(db, m, n)
  }

  /** Active standalone rows no episode covers. */
  function PendingSolos(db: Tables, m: Mode): set<nat> {
    set i: nat | i < |db.raw| && IsStandalone(db.raw, i) && db.raw[i].mode == m && i !in db.gone && !IsCovered(db, i)
  }

  // ---------------------------------------------------------------------------
  // The three listings, on the columns they read
  // ---------------------------------------------------------------------------

  /** An active conversation turn of the thread in this register. */
  ghost predicate IsActiveTurn(db: Tables, m: Mode, t: nat, i: nat) {
    && i < |db.raw| && i !in db.gone
    && db.raw[i].rtype == Conversation && db.raw[i].thread == Some(t) && db.raw[i].mode == m
  }

  /** A thread is listed when it has an active turn and no episode of the register. */
  lemma SessionListedIff(db: Tables, m: Mode, t: nat)
    ensures t in PendingSessions(db, m) <==>
              && (exists i: nat :: IsActiveTurn(db, m, t, i))
              && forall n :: n in db.nodes ==> db.nodes[n].mode != m || db.nodes[n].thread != Some(t)
  {
    if i: nat :| IsActiveTurn(db, m, t, i) {
      assert !HasSession(db, m, t) ==> IsPendingTurn(db, m, i);
    }
    if t in PendingSessions(db, m) {
      var i: nat :| i < |db.raw| && IsPendingTurn(db, m, i) && db.raw[i].thread == Some(t);
      assert IsActiveTurn(db, m, t, i);
    }
  }

  /** An episode is listed when its count is not the number of its session's active turns. */
  lemma StaleListedIff(db: Tables, m: Mode, n: nat)
    ensures n in StaleEpisodes(db, m) <==>
              && n in db.nodes && db.nodes[n].mode == m && db.nodes[n].thread.Some?
              && db.nodes[n].turns != |set i: nat | i < |db.raw| && IsActiveTurn(db, m, db.nodes[n].thread.value, i)|
  {
    if n in db.nodes && db.nodes[n].thread.Some? {
      var t := db.nodes[n].thread.value;
      assert Turns(db, m, t) == set i: nat | i < |db.raw| && IsActiveTurn(db, m, t, i);
    }
  }

  /** A row is listed when it is an active document or threadless turn that no episode covers. */
  lemma SoloListedIff(db: Tables, m: Mode, i: nat)
    ensures i in PendingSolos(db, m) <==>
              && i < |db.raw| && i !in db.gone && db.raw[i].mode == m
              && (db.raw[i].rtype != Document ==> db.raw[i].rtype == Conversation && db.raw[i].thread.None?)
              && forall n :: n in db.nodes ==> i !in db.nodes[n].raws
  {
  }

  // ---------------------------------------------------------------------------
  // A pass
  // ---------------------------------------------------------------------------

  /** One new node, under a fresh id. */
  function WithNode(db: Tables, node: Node): Tables {
    db.(nodes := db.nodes[db.next := node], next := db.next + 1)
  }

  function WithNodes(db: Tables, nodes: seq<Node>): (r: Tables)
    ensures r.raw == db.raw && r.gone == db.gone
  {
    if nodes == [] then db else WithNode(WithNodes(db, nodes[..|nodes| - 1]), nodes[|nodes| - 1])
  }

  /** The new episodes of the listed threads. */
  function SessionNodes(db: Tables, m: Mode, q: seq<nat>): seq<Node> {
    seq(|q|, k requires 0 <= k < |q| => SessionNode(db.raw, Turns(db, m, q[k]), m, q[k]))
  }

  /** A listed episode is rewritten in place, unless its session has no active turn left. */
  function Refreshed(db: Tables, m: Mode, n: nat): Node
    requires n in db.nodes
  {
    var node := db.nodes[n];
    if node.thread.Some? && Turns(db, m, node.thread.value) != {}
    then SessionNode(db.raw, Turns(db, m, node.thread.value), m, node.thread.value)
    else node
  }

  function WithRefreshed(db: Tables, m: Mode, q: seq<nat>): Tables {
    db.(nodes := map n | n in db.nodes :: if n in q then Refreshed(db, m, n) else db.nodes[n])
  }

  /** The new episodes of the listed standalone rows. */
  function SoloNodes(db: Tables, q: seq<nat>): seq<Node>
    requires forall k :: 0 <= k < |q| ==> q[k] < |db.raw|
  {
    seq(|q|, k requires 0 <= k < |q| => SoloNode(db.raw, q[k]))
  }

  function OwnOrder(i: nat): int { i }

  function TimeOf(raw: seq<Row>): nat -> int {
    (i: nat) => if i < |raw| then raw[i].eventTime else 0
  }

  /** What one pass over a register does: the three batches it took, and the tables after. */
  datatype Pass = Pass(mode: Mode, cap: nat, sessions: seq<nat>, stale: seq<nat>, solos: seq<nat>)

  ghost predicate IsPass(db: Tables, p: Pass, db': Tables) {
    && Batch(PendingSessions(db, p.mode), OwnOrder, p.cap, p.sessions)
    && var one := WithNodes(db, SessionNodes(db, p.mode, p.sessions));
    && Batch(StaleEpisodes(one, p.mode), OwnOrder, p.cap, p.stale)
    && var two := WithRefreshed(one, p.mode, p.stale);
    && Batch(PendingSolos(two, p.mode), TimeOf(two.raw), p.cap, p.solos)
    && db' == WithNodes(two, SoloNodes(two, p.solos))
  }

  /** Threads and episodes are taken by id, standalone rows oldest first; what a pass leaves
      comes no earlier than what it took. */
  lemma PassTakesInOrder(db: Tables, p: Pass, db': Tables)
    requires IsPass(db, p, db')
    ensures forall j, k :: 0 <= j < k < |p.sessions| ==> p.sessions[j] < p.sessions[k]
    ensures forall k, t :: 0 <= k < |p.sessions| && t in PendingSessions(db, p.mode) && t !in p.sessions ==> p.sessions[k] < t
    ensures forall j, k :: 0 <= j < k < |p.stale| ==> p.stale[j] < p.stale[k]
    ensures forall k :: 0 <= k < |p.solos| ==> p.solos[k] < |db.raw|
    ensures forall j, k :: 0 <= j < k < |p.solos| ==> db.raw[p.solos[j]].eventTime <= db.raw[p.solos[k]].eventTime
  {
    var one := WithNodes(db, SessionNodes(db, p.mode, p.sessions));
    var two := WithRefreshed(one, p.mode, p.stale);
    forall k, t | 0 <= k < |p.sessions| && t in PendingSessions(db, p.mode) && t !in p.sessions
      ensures p.sessions[k] < t
    {
      assert OwnOrder(p.sessions[k]) <= OwnOrder(t);
    }
    forall j, k | 0 <= j < k < |p.sessions|
      ensures p.sessions[j] < p.sessions[k]
    {
      assert OwnOrder(p.sessions[j]) <= OwnOrder(p.sessions[k]);
    }
    forall j, k | 0 <= j < k < |p.stale|
      ensures p.stale[j] < p.stale[k]
    {
      assert OwnOrder(p.stale[j]) <= OwnOrder(p.stale[k]);
    }
    SolosOldestFirst(two, p.mode, p.cap, p.solos);
  }

  lemma SolosOldestFirst(db: Tables, m: Mode, cap: nat, q: seq<nat>)
    requires Batch(PendingSolos(db, m), TimeOf(db.raw), cap, q)
    ensures forall k :: 0 <= k < |q| ==> q[k] < |db.raw|
    ensures forall j, k :: 0 <= j < k < |q| ==> db.raw[q[j]].eventTime <= db.raw[q[k]].eventTime
    ensures forall k, i :: 0 <= k < |q| && i in PendingSolos(db, m) && i !in q ==> db.raw[q[k]].eventTime <= db.raw[i].eventTime
  {
    forall k | 0 <= k < |q|
      ensures q[k] in PendingSolos(db, m)
    {
    }
    forall j, k | 0 <= j < k < |q|
      ensures db.raw[q[j]].eventTime <= db.raw[q[k]].eventTime
    {
      assert TimeOf(db.raw)(q[j]) <= TimeOf(db.raw)(q[k]);
    }
    forall k, i | 0 <= k < |q| && i in PendingSolos(db, m) && i !in q
      ensures db.raw[q[k]].eventTime <= db.raw[i].eventTime
    {
      assert TimeOf(db.raw)(q[k]) <= TimeOf(db.raw)(i);
    }
  }

  // ---------------------------------------------------------------------------
  // The invariant of the curated layer
  // ---------------------------------------------------------------------------

  /** The node is what its own covered rows derive. */
  ghost predicate Faithful(raw: seq<Row>, node: Node) {
    match node.thread
    case Some(t) =>
      && node.raws != {} && (forall i :: i in node.raws ==> IsTurn(raw, node.mode, t, i))
      && node == SessionNode(raw, node.raws, node.mode, t)
    case None =>
      exists i: nat :: IsStandalone(raw, i) && node == SoloNode(raw, i)
  }

  /** Two nodes for one session, or for one standalone row. */
  ghost predicate SameKey(a: Node, b: Node) {
    a.thread == b.thread && if a.thread.Some? then a.mode == b.mode else a.raws == b.raws
  }

  ghost predicate Sound(db: Tables) {
    && (forall g :: g in db.gone ==> g < |db.raw|)
    && (forall n :: n in db.nodes ==> n < db.next && Faithful(db.raw, db.nodes[n]))
    && (forall a, b :: a in db.nodes && b in db.nodes && SameKey(db.nodes[a], db.nodes[b]) ==> a == b)
  }

  /** No covered row has been superseded since. */
  ghost predicate CoverageIsActive(db: Tables) {
    forall n, i :: n in db.nodes && i in db.nodes[n].raws ==> i !in db.gone
  }

  ghost predicate NewKey(db: Tables, node: Node) {
    forall n :: n in db.nodes ==> !SameKey(db.nodes[n], node) && !SameKey(node, db.nodes[n])
  }

  lemma WithNodeIsSound(db: Tables, node: Node)
    requires Sound(db) && Faithful(db.raw, node) && NewKey(db, node)
    ensures Sound(WithNode(db, node))
    ensures forall n :: n in db.nodes ==> n in WithNode(db, node).nodes && WithNode(db, node).nodes[n] == db.nodes[n]
    ensures WithNode(db, node).nodes[db.next] == node && db.next !in db.nodes
  {
    var db' := WithNode(db, node);
    forall a, b | a in db'.nodes && b in db'.nodes && SameKey(db'.nodes[a], db'.nodes[b])
      ensures a == b
    {
      if a != db.next && b != db.next {
        assert SameKey(db.nodes[a], db.nodes[b]);
      }
    }
  }

  lemma FreshSessionIsFaithful(db: Tables, m: Mode, t: nat)
    requires Turns(db, m, t) != {}
    ensures Faithful(db.raw, SessionNode(db.raw, Turns(db, m, t), m, t))
  {
  }

  lemma PendingHasTurns(db: Tables, m: Mode, t: nat)
    requires t in PendingSessions(db, m)
    ensures Turns(db, m, t) != {} && !HasSession(db, m, t)
  {
    var i: nat :| i < |db.raw| && IsPendingTurn(db, m, i) && db.raw[i].thread == Some(t);
    assert i in Turns(db, m, t);
  }

  ghost predicate Extends(db: Tables, r: Tables) {
    forall n :: n in db.nodes ==> n in r.nodes && r.nodes[n] == db.nodes[n]
  }

  ghost predicate Separate(nodes: seq<Node>) {
    forall j, k :: 0 <= j < k < |nodes| ==> !SameKey(nodes[j], nodes[k]) && !SameKey(nodes[k], nodes[j])
  }

  /** Adding faithful nodes under new, different keys. */
  lemma {:induction false} WithNodesIsSound(db: Tables, nodes: seq<Node>)
    requires Sound(db) && Separate(nodes)
    requires forall k :: 0 <= k < |nodes| ==> Faithful(db.raw, nodes[k]) && NewKey(db, nodes[k])
    ensures Sound(WithNodes(db, nodes)) && Extends(db, WithNodes(db, nodes))
    ensures forall n :: n in WithNodes(db, nodes).nodes && n !in db.nodes ==> WithNodes(db, nodes).nodes[n] in nodes
    ensures forall k :: 0 <= k < |nodes| ==> HasNode(WithNodes(db, nodes), nodes[k])
  {
    if nodes != [] {
      var init, last := nodes[..|nodes| - 1], nodes[|nodes| - 1];
      WithNodesIsSound(db, init);
      var r := WithNodes(db, init);
      forall n | n in r.nodes
        ensures !SameKey(r.nodes[n], last) && !SameKey(last, r.nodes[n])
      {
        if n !in db.nodes {
          var k :| 0 <= k < |init| && init[k] == r.nodes[n];
          assert nodes[k] == init[k];
        }
      }
      WithNodeIsSound(r, last);
      var r' := WithNode(r, last);
      forall k | 0 <= k < |nodes|
        ensures HasNode(r', nodes[k])
      {
        if k < |init| {
          assert HasNode(r, init[k]);
          var n :| n in r.nodes && r.nodes[n] == nodes[k];
          assert r'.nodes[n] == nodes[k];
        } else {
          assert r'.nodes[r.next] == last;
        }
      }
    }
  }

  ghost predicate HasNode(db: Tables, node: Node) {
    exists n :: n in db.nodes && db.nodes[n] == node
  }

  /** What each of the three stages does to the tables. */
  ghost predicate Added(db: Tables, nodes: seq<Node>, r: Tables) {
    && Sound(r) && r.raw == db.raw && r.gone == db.gone && Extends(db, r)
    && (forall n :: n in r.nodes && n !in db.nodes ==> r.nodes[n] in nodes)
    && (forall k :: 0 <= k < |nodes| ==> HasNode(r, nodes[k]))
  }

  ghost predicate RewrittenOrKept(db: Tables, m: Mode, q: seq<nat>, n: nat, r: Tables)
    requires n in db.nodes && n in r.nodes
  {
    var node := db.nodes[n];
    if n in q && node.thread.Some? && node.mode == m && Turns(db, m, node.thread.value) != {}
    then r.nodes[n] == SessionNode(db.raw, Turns(db, m, node.thread.value), m, node.thread.value)
    else r.nodes[n] == node
  }

  ghost predicate Rewritten(db: Tables, m: Mode, q: seq<nat>, r: Tables) {
    && Sound(r) && r.raw == db.raw && r.gone == db.gone && r.nodes.Keys == db.nodes.Keys
    && forall n :: n in db.nodes ==> RewrittenOrKept(db, m, q, n, r)
  }

  lemma SessionsStage(db: Tables, m: Mode, q: seq<nat>)
    requires Sound(db) && Distinct(q) && forall k :: 0 <= k < |q| ==> q[k] in PendingSessions(db, m)
    ensures Added(db, SessionNodes(db, m, q), WithNodes(db, SessionNodes(db, m, q)))
  {
    var nodes := SessionNodes(db, m, q);
    forall k | 0 <= k < |nodes|
      ensures Faithful(db.raw, nodes[k]) && NewKey(db, nodes[k])
    {
      PendingHasTurns(db, m, q[k]);
      FreshSessionIsFaithful(db, m, q[k]);
    }
    WithNodesIsSound(db, nodes);
  }

  lemma RefreshStage(db: Tables, m: Mode, q: seq<nat>)
    requires Sound(db) && forall k :: 0 <= k < |q| ==> q[k] in StaleEpisodes(db, m)
    ensures Rewritten(db, m, q, WithRefreshed(db, m, q))
  {
    var r := WithRefreshed(db, m, q);
    forall n | n in r.nodes
      ensures RewrittenOrKept(db, m, q, n, r)
      ensures Faithful(r.raw, r.nodes[n])
      ensures r.nodes[n].mode == db.nodes[n].mode && r.nodes[n].thread == db.nodes[n].thread
      ensures r.nodes[n].thread.None? ==> r.nodes[n] == db.nodes[n]
    {
      if n in q {
        assert IsStale(db, m, n);
        var t := db.nodes[n].thread.value;
        if Turns(db, m, t) != {} {
          FreshSessionIsFaithful(db, m, t);
        }
      }
    }
    forall a, b | a in r.nodes && b in r.nodes && SameKey(r.nodes[a], r.nodes[b])
      ensures a == b
    {
      assert SameKey(db.nodes[a], db.nodes[b]);
    }
  }

  lemma SoloIsNew(db: Tables, i: nat)
    requires Sound(db) && i < |db.raw| && IsStandalone(db.raw, i) && !IsCovered(db, i)
    ensures Faithful(db.raw, SoloNode(db.raw, i)) && NewKey(db, SoloNode(db.raw, i))
  {
    assert i in SoloNode(db.raw, i).raws;
  }

  lemma SolosStage(db: Tables, m: Mode, q: seq<nat>)
    requires Sound(db) && Distinct(q) && forall k :: 0 <= k < |q| ==> q[k] in PendingSolos(db, m)
    ensures forall k :: 0 <= k < |q| ==> q[k] < |db.raw|
    ensures Added(db, SoloNodes(db, q), WithNodes(db, SoloNodes(db, q)))
  {
    var nodes := SoloNodes(db, q);
    forall k | 0 <= k < |nodes|
      ensures Faithful(db.raw, nodes[k]) && NewKey(db, nodes[k])
    {
      SoloIsNew(db, q[k]);
    }
    forall j, k | 0 <= j < k < |nodes|
      ensures !SameKey(nodes[j], nodes[k]) && !SameKey(nodes[k], nodes[j])
    {
      assert q[j] in nodes[j].raws && q[j] !in nodes[k].raws;
    }
    WithNodesIsSound(db, nodes);
  }

  // ---------------------------------------------------------------------------
  // Each stage keeps the coverage active and moves exactly its batch
  // ---------------------------------------------------------------------------

  lemma AddedCoverage(db: Tables, nodes: seq<Node>, r: Tables)
    requires Added(db, nodes, r) && CoverageIsActive(db)
    requires forall k, i :: 0 <= k < |nodes| && i in nodes[k].raws ==> i !in db.gone
    ensures CoverageIsActive(r)
  {
    forall n, i | n in r.nodes && i in r.nodes[n].raws
      ensures i !in db.gone
    {
      if n !in db.nodes {
        var k :| 0 <= k < |nodes| && nodes[k] == r.nodes[n];
      }
    }
  }

  lemma RewrittenCoverage(db: Tables, m: Mode, q: seq<nat>, r: Tables)
    requires Rewritten(db, m, q, r) && CoverageIsActive(db)
    ensures CoverageIsActive(r)
  {
    forall n, i | n in r.nodes && i in r.nodes[n].raws
      ensures i !in db.gone
    {
      assert RewrittenOrKept(db, m, q, n, r);
    }
  }

  lemma AddedSessions(db: Tables, nodes: seq<Node>, r: Tables, m: Mode, t: nat)
    requires Added(db, nodes, r)
    ensures HasSession(r, m, t) <==>
              HasSession(db, m, t) || exists k :: 0 <= k < |nodes| && nodes[k].mode == m && nodes[k].thread == Some(t)
  {
    if HasSession(db, m, t) {
      var n :| n in db.nodes && db.nodes[n].mode == m && db.nodes[n].thread == Some(t);
      assert r.nodes[n] == db.nodes[n];
    }
    if k :| 0 <= k < |nodes| && nodes[k].mode == m && nodes[k].thread == Some(t) {
      assert HasNode(r, nodes[k]);
      var n :| n in r.nodes && r.nodes[n] == nodes[k];
    }
    if HasSession(r, m, t) {
      var n :| n in r.nodes && r.nodes[n].mode == m && r.nodes[n].thread == Some(t);
      if n !in db.nodes {
        var k :| 0 <= k < |nodes| && nodes[k] == r.nodes[n];
      } else {
        assert r.nodes[n] == db.nodes[n];
      }
    }
  }

  lemma RewrittenSessions(db: Tables, m: Mode, q: seq<nat>, r: Tables, m': Mode, t: nat)
    requires Rewritten(db, m, q, r)
    ensures HasSession(r, m', t) <==> HasSession(db, m', t)
  {
    forall n | n in db.nodes
      ensures r.nodes[n].mode == db.nodes[n].mode && r.nodes[n].thread == db.nodes[n].thread
    {
      assert RewrittenOrKept(db, m, q, n, r);
    }
  }

  lemma AddedCovers(db: Tables, nodes: seq<Node>, r: Tables, i: nat)
    requires Added(db, nodes, r)
    ensures IsCovered(r, i) <==> IsCovered(db, i) || exists k :: 0 <= k < |nodes| && i in nodes[k].raws
  {
    if IsCovered(db, i) {
      var n :| n in db.nodes && i in db.nodes[n].raws;
      assert i in r.nodes[n].raws;
    }
    if k :| 0 <= k < |nodes| && i in nodes[k].raws {
      assert HasNode(r, nodes[k]);
      var n :| n in r.nodes && r.nodes[n] == nodes[k];
      assert i in r.nodes[n].raws;
    }
    if IsCovered(r, i) {
      var n :| n in r.nodes && i in r.nodes[n].raws;
      if n !in db.nodes {
        var k :| 0 <= k < |nodes| && nodes[k] == r.nodes[n];
      } else {
        assert i in db.nodes[n].raws;
      }
    }
  }

  lemma CoverHasNoThread(db: Tables, n: nat, i: nat)
    requires Sound(db) && n in db.nodes && i in db.nodes[n].raws && IsStandalone(db.raw, i)
    ensures db.nodes[n].thread.None?
  {
    assert Faithful(db.raw, db.nodes[n]);
  }

  /** Refreshing a session never changes which standalone rows are covered. */
  lemma RewrittenCovers(db: Tables, m: Mode, q: seq<nat>, r: Tables, i: nat)
    requires Rewritten(db, m, q, r) && Sound(db) && IsStandalone(db.raw, i)
    ensures IsCovered(r, i) <==> IsCovered(db, i)
  {
    if IsCovered(db, i) {
      var n :| n in db.nodes && i in db.nodes[n].raws;
      CoverHasNoThread(db, n, i);
      assert RewrittenOrKept(db, m, q, n, r);
      assert i in r.nodes[n].raws;
    }
    if IsCovered(r, i) {
      var n :| n in r.nodes && i in r.nodes[n].raws;
      CoverHasNoThread(r, n, i);
      assert RewrittenOrKept(db, m, q, n, r);
      assert i in db.nodes[n].raws;
    }
  }

  /** The three stages of a pass. */
  ghost predicate Staged(db: Tables, p: Pass, one: Tables, two: Tables, db': Tables) {
    && Added(db, SessionNodes(db, p.mode, p.sessions), one)
    && Rewritten(one, p.mode, p.stale, two)
    && (forall k :: 0 <= k < |p.sessions| ==> p.sessions[k] in PendingSessions(db, p.mode))
    && (forall k :: 0 <= k < |p.solos| ==> p.solos[k] in PendingSolos(two, p.mode))
    && Added(two, SoloNodes(two, p.solos), db')
  }

  lemma PassIsStaged(db: Tables, p: Pass, db': Tables) returns (one: Tables, two: Tables)
    requires Sound(db) && IsPass(db, p, db')
    ensures Staged(db, p, one, two, db')
  {
    one := WithNodes(db, SessionNodes(db, p.mode, p.sessions));
    two := WithRefreshed(one, p.mode, p.stale);
    SessionsStage(db, p.mode, p.sessions);
    RefreshStage(one, p.mode, p.stale);
    SolosStage(two, p.mode, p.solos);
  }

  /** A pass covers active rows only. */
  lemma StagesKeepCoverage(db: Tables, p: Pass, one: Tables, two: Tables, db': Tables)
    requires Staged(db, p, one, two, db') && CoverageIsActive(db)
    ensures CoverageIsActive(db')
  {
    AddedCoverage(db, SessionNodes(db, p.mode, p.sessions), one);
    RewrittenCoverage(one, p.mode, p.stale, two);
    AddedCoverage(two, SoloNodes(two, p.solos), db');
  }

  lemma StagesAddSessions(db: Tables, p: Pass, one: Tables, two: Tables, db': Tables, t: nat)
    requires Staged(db, p, one, two, db')
    ensures HasSession(db', p.mode, t) <==> HasSession(db, p.mode, t) || t in p.sessions
  {
    var nodes := SessionNodes(db, p.mode, p.sessions);
    AddedSessions(db, nodes, one, p.mode, t);
    RewrittenSessions(one, p.mode, p.stale, two, p.mode, t);
    AddedSessions(two, SoloNodes(two, p.solos), db', p.mode, t);
    SessionNodesAre(db, p.mode, p.sessions, t);
  }

  lemma SessionNodesAre(db: Tables, m: Mode, q: seq<nat>, t: nat)
    ensures (exists k :: 0 <= k < |SessionNodes(db, m, q)| && SessionNodes(db, m, q)[k].mode == m
                         && SessionNodes(db, m, q)[k].thread == Some(t)) <==> t in q
  {
    var nodes := SessionNodes(db, m, q);
    if t in q {
      var k :| 0 <= k < |q| && q[k] == t;
      assert nodes[k].mode == m && nodes[k].thread == Some(t);
    }
    if k :| 0 <= k < |nodes| && nodes[k].mode == m && nodes[k].thread == Some(t) {
      assert q[k] in q;
    }
  }

  /** Exactly the listed sessions stop being pending. */
  lemma PassDrainsSessions(db: Tables, p: Pass, one: Tables, two: Tables, db': Tables, t: nat)
    requires Staged(db, p, one, two, db')
    ensures t in PendingSessions(db', p.mode) <==> t in PendingSessions(db, p.mode) && t !in p.sessions
  {
    StagesAddSessions(db, p, one, two, db', t);
    if t in PendingSessions(db, p.mode) && t !in p.sessions {
      var i: nat :| i < |db.raw| && IsPendingTurn(db, p.mode, i) && db.raw[i].thread == Some(t);
      assert IsPendingTurn(db', p.mode, i);
    }
    if t in PendingSessions(db', p.mode) {
      var i: nat :| i < |db.raw| && IsPendingTurn(db', p.mode, i) && db.raw[i].thread == Some(t);
      assert IsPendingTurn(db, p.mode, i);
    }
  }

  lemma SoloNodesCover(db: Tables, q: seq<nat>, i: nat)
    requires forall k :: 0 <= k < |q| ==> q[k] < |db.raw|
    ensures (exists k :: 0 <= k < |SoloNodes(db, q)| && i in SoloNodes(db, q)[k].raws) <==> i in q
  {
    if i in q {
      var k :| 0 <= k < |q| && q[k] == i;
      assert i in SoloNodes(db, q)[k].raws;
    }
  }

  lemma SessionNodesCover(db: Tables, m: Mode, q: seq<nat>, i: nat)
    requires IsStandalone(db.raw, i)
    ensures !exists k :: 0 <= k < |SessionNodes(db, m, q)| && i in SessionNodes(db, m, q)[k].raws
  {
  }

  lemma StagesCover(db: Tables, p: Pass, one: Tables, two: Tables, db': Tables, i: nat)
    requires Staged(db, p, one, two, db') && IsStandalone(db.raw, i)
    ensures IsCovered(db', i) <==> IsCovered(db, i) || i in p.solos
  {
    AddedCovers(db, SessionNodes(db, p.mode, p.sessions), one, i);
    SessionNodesCover(db, p.mode, p.sessions, i);
    RewrittenCovers(one, p.mode, p.stale, two, i);
    AddedCovers(two, SoloNodes(two, p.solos), db', i);
    SoloNodesCover(two, p.solos, i);
  }

  /** Exactly the listed standalone rows stop being pending. */
  lemma PassDrainsSolos(db: Tables, p: Pass, one: Tables, two: Tables, db': Tables, i: nat)
    requires Staged(db, p, one, two, db')
    ensures i in PendingSolos(db', p.mode) <==> i in PendingSolos(db, p.mode) && i !in p.solos
  {
    if IsStandalone(db.raw, i) {
      StagesCover(db, p, one, two, db', i);
    }
  }
}
