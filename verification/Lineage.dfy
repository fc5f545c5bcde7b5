/** The supersede chain of a record: everything it replaces, and everything that replaces it. */
module Lineage {
  import opened Prelude
  import opened RawStore

  datatype LineageError = NotFound

  /** The record reached from `r` after following `n` writers' claims. */
  function Claim(raw: seq<Record>, r: nat, n: nat): Option<nat>
    decreases n
  {
    if r >= |raw| then None
    else if n == 0 then Some(r)
    else if raw[r].supersedes.None? then None
    else Claim(raw, raw[r].supersedes.value, n - 1)
  }

  /** `a` replaces `b`, directly or through others; every record reaches itself. */
  ghost predicate Replaces(raw: seq<Record>, a: nat, b: nat) {
    exists n: nat :: Claim(raw, a, n) == Some(b)
  }

  lemma {:induction false} ClaimCompose(raw: seq<Record>, r: nat, m: nat, n: nat)
    ensures Claim(raw, r, m + n) == if Claim(raw, r, m).Some? then Claim(raw, Claim(raw, r, m).value, n) else None
    decreases m
  {
    if r < |raw| && m > 0 && raw[r].supersedes.Some? {
      ClaimCompose(raw, raw[r].supersedes.value, m - 1, n);
    }
  }

  /** Each claim steps to an earlier arrival of the same user: a chain of `n` claims spans
      at least `n` arrivals, which is why neither walk can run forever. */
  lemma {:induction false} ClaimPointsBack(raw: seq<Record>, r: nat, n: nat)
    requires ClaimsPointBack(raw) && Claim(raw, r, n).Some?
    ensures Claim(raw, r, n).value + n <= r < |raw|
    ensures raw[Claim(raw, r, n).value].user == raw[r].user
    decreases n
  {
    if n > 0 {
      ClaimPointsBack(raw, raw[r].supersedes.value, n - 1);
    }
  }

  /** The distance along the claims is fixed by the two ends. */
  lemma DistanceIsFixed(raw: seq<Record>, r: nat, id: nat, m: nat, n: nat)
    requires ClaimsPointBack(raw) && Claim(raw, r, m) == Claim(raw, r, n) == Some(id)
    ensures m == n
  {
    var lo, hi := if m <= n then m else n, if m <= n then n else m;
    ClaimCompose(raw, r, lo, hi - lo);
    ClaimPointsBack(raw, id, hi - lo);
  }

  /** The backward walk of the query: one working row at a time. */
  method Back(raw: seq<Record>, user: string, id: nat) returns (rows: seq<nat>)
    requires ClaimsPointBack(raw) && id < |raw| && raw[id].user == user
    ensures Distinct(rows)
    ensures forall b: nat :: b in rows <==> Replaces(raw, id, b)
  {
    rows := [id];
    var working := id;
    while raw[working].supersedes.Some? && raw[raw[working].supersedes.value].user == user
      invariant rows != [] && working == rows[|rows| - 1] && working < |raw|
      invariant raw[working].user == user
      invariant forall k :: 0 <= k < |rows| ==> Claim(raw, id, k) == Some(rows[k])
      decreases working
    {
      ClaimCompose(raw, id, |rows| - 1, 1);
      working := raw[working].supersedes.value;
      assert Claim(raw, working, 0) == Some(working);
      rows := rows + [working];
    }
    forall i, j | 0 <= i < j < |rows|
      ensures rows[i] != rows[j]
    {
      if rows[i] == rows[j] { DistanceIsFixed(raw, id, rows[i], i, j); }
    }
    forall b: nat
      ensures b in rows <==> Replaces(raw, id, b)
    {
      if Replaces(raw, id, b) {
        var n: nat :| Claim(raw, id, n) == Some(b);
        if n >= |rows| {
          ClaimCompose(raw, id, |rows| - 1, n - (|rows| - 1));
        }
        assert b == rows[n];
      }
    }
  }

  /** The rows of the join: every record of the user whose claim names a working row. */
  method Claimants(raw: seq<Record>, user: string, working: seq<nat>) returns (next: seq<nat>)
    ensures Distinct(next)
    ensures forall r: nat :: r in next <==>
              r < |raw| && raw[r].user == user && raw[r].supersedes.Some? && raw[r].supersedes.value in working
  {
    next := [];
    for r := 0 to |raw|
      invariant Distinct(next)
      invariant forall x: nat :: x in next <==>
                  x < r && raw[x].user == user && raw[x].supersedes.Some? && raw[x].supersedes.value in working
    {
      if raw[r].user == user && raw[r].supersedes.Some? && raw[r].supersedes.value in working {
        next := next + [r];
      }
    }
  }

  /** The forward walk of the query, a level at a time: level `n` holds the records whose
      chain reaches the anchor after exactly `n` claims. */
  method Forward(raw: seq<Record>, user: string, id: nat) returns (rows: seq<nat>)
    requires ClaimsPointBack(raw) && id < |raw| && raw[id].user == user
    ensures Distinct(rows)
    ensures forall a: nat :: a in rows <==> Replaces(raw, a, id)
  {
    var working := [id];
    rows := [id];
    ghost var n := 0;
    while working != []
      invariant Distinct(rows) && Distinct(working)
      invariant forall r: nat :: r in working <==> Claim(raw, r, n) == Some(id)
      invariant forall r: nat :: r in rows <==> Within(raw, r, id, n)
      decreases |raw| - n
    {
      FirstOfLevel(raw, id, working, n);
      var next := Claimants(raw, user, working);
      forall r: nat
        ensures r in next <==> Claim(raw, r, n + 1) == Some(id)
        ensures r in next ==> !Within(raw, r, id, n)
        ensures Within(raw, r, id, n + 1) <==> Within(raw, r, id, n) || r in next
      {
        NextLevel(raw, user, id, working, n, r);
      }
      assert forall i :: 0 <= i < |next| ==> next[i] in next;
      rows := rows + next;
      working := next;
      n := n + 1;
    }
    forall a: nat
      ensures a in rows <==> Replaces(raw, a, id)
    {
      if Replaces(raw, a, id) {
        var m: nat :| Claim(raw, a, m) == Some(id);
        NoLaterLevel(raw, a, id, m, n);
      }
    }
  }

  ghost predicate Within(raw: seq<Record>, r: nat, id: nat, n: nat) {
    exists m: nat :: m <= n && Claim(raw, r, m) == Some(id)
  }

  lemma FirstOfLevel(raw: seq<Record>, id: nat, working: seq<nat>, n: nat)
    requires ClaimsPointBack(raw) && working != []
    requires forall r: nat :: r in working <==> Claim(raw, r, n) == Some(id)
    ensures n < |raw|
  {
    var r := working[0];
    assert r in working;
    ClaimPointsBack(raw, r, n);
  }

  lemma NextLevel(raw: seq<Record>, user: string, id: nat, working: seq<nat>, n: nat, r: nat)
    requires ClaimsPointBack(raw) && id < |raw| && raw[id].user == user
    requires forall x: nat :: x in working <==> Claim(raw, x, n) == Some(id)
    ensures (r < |raw| && raw[r].user == user && raw[r].supersedes.Some? && raw[r].supersedes.value in working)
            <==> Claim(raw, r, n + 1) == Some(id)
    ensures Claim(raw, r, n + 1) == Some(id) ==> !Within(raw, r, id, n)
    ensures Within(raw, r, id, n + 1) <==> Within(raw, r, id, n) || Claim(raw, r, n + 1) == Some(id)
  {
    if Claim(raw, r, n + 1) == Some(id) {
      ClaimPointsBack(raw, r, n + 1);
      forall m: nat | Claim(raw, r, m) == Some(id)
        ensures m == n + 1
      {
        DistanceIsFixed(raw, r, id, m, n + 1);
      }
    }
    if Within(raw, r, id, n + 1) {
      var m: nat :| m <= n + 1 && Claim(raw, r, m) == Some(id);
      assert m <= n ==> Within(raw, r, id, n);
    }
    if Within(raw, r, id, n) {
      var m: nat :| m <= n && Claim(raw, r, m) == Some(id);
      assert m <= n + 1;
    }
  }

  /** Once a level is empty, so are all later ones. */
  lemma {:induction false} NoLaterLevel(raw: seq<Record>, r: nat, id: nat, m: nat, n: nat)
    requires Claim(raw, r, m) == Some(id) && forall x: nat :: Claim(raw, x, n) != Some(id)
    ensures m < n
    decreases m
  {
    if m > n {
      NoLaterLevel(raw, raw[r].supersedes.value, id, m - 1, n);
    }
  }

  ghost predicate InRange(raw: seq<Record>, s: seq<nat>) {
    forall k :: 0 <= k < |s| ==> s[k] < |raw|
  }

  ghost predicate SortedByIngest(raw: seq<Record>, s: seq<nat>)
    requires InRange(raw, s)
  {
    forall i, j :: 0 <= i < j < |s| ==> raw[s[i]].ingestTime <= raw[s[j]].ingestTime
  }

  /** Where a row stored at time `t` goes: after every row stored no later. */
  method Position(raw: seq<Record>, s: seq<nat>, t: int) returns (k: nat)
    requires InRange(raw, s) && SortedByIngest(raw, s)
    ensures k <= |s|
    ensures forall j :: 0 <= j < k ==> raw[s[j]].ingestTime <= t
    ensures forall j :: k <= j < |s| ==> raw[s[j]].ingestTime > t
  {
    k := |s|;
    while k > 0 && raw[s[k - 1]].ingestTime > t
      invariant k <= |s|
      invariant forall j :: k <= j < |s| ==> raw[s[j]].ingestTime > t
    {
      k := k - 1;
    }
  }

  function InsertAt(s: seq<nat>, k: nat, r: nat): seq<nat>
    requires k <= |s|
  {
    s[..k] + [r] + s[k..]
  }

  lemma InsertKeepsSet(s: seq<nat>, k: nat, r: nat)
    requires k <= |s|
    ensures forall x: nat :: x in InsertAt(s, k, r) <==> x in s || x == r
    ensures Distinct(s) && r !in s ==> Distinct(InsertAt(s, k, r))
  {
    var t := InsertAt(s, k, r);
    forall x: nat | x in s
      ensures x in t
    {
      var i :| 0 <= i < |s| && s[i] == x;
      assert t[if i < k then i else i + 1] == x;
    }
    assert t[k] == r;
    assert forall i :: 0 <= i < |t| && i != k ==> t[i] == s[if i < k then i else i - 1];
  }

  /** The union of the walks: duplicates dropped, oldest stored first. */
  method UnionByIngest(raw: seq<Record>, both: seq<nat>) returns (out: seq<nat>)
    requires InRange(raw, both)
    ensures InRange(raw, out) && SortedByIngest(raw, out) && Distinct(out)
    ensures forall x: nat :: x in out <==> x in both
  {
    out := [];
    for k := 0 to |both|
      invariant InRange(raw, out) && SortedByIngest(raw, out) && Distinct(out)
      invariant forall x: nat :: x in out <==> x in both[..k]
    {
      assert both[..k + 1] == both[..k] + [both[k]];
      if both[k] !in out {
        var p := Position(raw, out, raw[both[k]].ingestTime);
        InsertKeepsSet(out, p, both[k]);
        out := InsertAt(out, p, both[k]);
      }
    }
    assert both[..|both|] == both;
  }

  /** A record's lineage: its owner gets exactly the records it replaces and the records
      that replace it, each once, oldest stored first. */
  method LineageOf(raw: seq<Record>, user: string, id: nat) returns (r: Result<seq<nat>, LineageError>)
    requires ClaimsPointBack(raw)
    ensures r.Err? <==> id >= |raw| || raw[id].user != user
    ensures r.Ok? ==>
              && Distinct(r.value) && InRange(raw, r.value) && SortedByIngest(raw, r.value)
              && (forall x: nat :: x in r.value <==> Replaces(raw, id, x) || Replaces(raw, x, id))
              && (forall x: nat :: x in r.value ==> raw[x].user == user)
  {
    if id >= |raw| || raw[id].user != user {
      return Err(NotFound);
    }
    var back := Back(raw, user, id);
    var fwd := Forward(raw, user, id);
    forall x: nat | x in back + fwd
      ensures x < |raw| && raw[x].user == user
    {
      if Replaces(raw, id, x) {
        var n: nat :| Claim(raw, id, n) == Some(x);
        ClaimPointsBack(raw, id, n);
      } else {
        var n: nat :| Claim(raw, x, n) == Some(id);
        ClaimPointsBack(raw, x, n);
      }
    }
    var both := back + fwd;
    assert forall k :: 0 <= k < |both| ==> both[k] in back + fwd;
    var out := UnionByIngest(raw, both);
    r := Ok(out);
  }
}
