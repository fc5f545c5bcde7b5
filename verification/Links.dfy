/** The causal links: what ingest resolves one record at a time, against what a rebuild
    resolves from every claim at once. */
module Links {
  import opened Prelude
  import opened RawStore
  import opened ReferenceHistory

  lemma {:induction false} NamedComplete(raw: seq<Record>, r: nat, n: nat, q: nat)
    requires r < |raw| && n <= |raw| && q < n && Names(raw, r, q)
    ensures q in Named(raw, r, n)
  {
    var rest := Named(raw, r, n - 1);
    if q < n - 1 {
      NamedComplete(raw, r, n - 1, q);
      assert q in rest;
    } else {
      assert Named(raw, r, n)[|rest|] == q;
    }
  }

  /** `q` is another record of the user of `r` under the source_ref that `r` says came before. */
  ghost predicate IsNamed(raw: seq<Record>, r: nat, q: nat)
    requires r < |raw|
  {
    && q < |raw| && q != r && raw[q].user == raw[r].user
    && raw[q].sourceRef.Some? && raw[r].prevSourceRef.Some? && raw[q].sourceRef.value == raw[r].prevSourceRef.value
  }

  /** A record has a parent exactly when it names one record and no other. */
  lemma ParentIs(raw: seq<Record>, r: nat, p: nat)
    requires r < |raw|
    ensures Parent(raw, r, |raw|) == Some(p) <==> IsNamed(raw, r, p) && forall q: nat :: IsNamed(raw, r, q) ==> q == p
  {
    forall q: nat
      ensures IsNamed(raw, r, q) <==> q < |raw| && Names(raw, r, q)
    {
    }
    var ids := Named(raw, r, |raw|);
    forall q: nat | q < |raw| && Names(raw, r, q)
      ensures q in ids
    {
      NamedComplete(raw, r, |raw|, q);
    }
    assert |ids| >= 1 ==> Names(raw, r, ids[0]);
    assert |ids| >= 2 ==> Names(raw, r, ids[1]);
  }

  lemma {:induction false} NamedInPrefix(raw: seq<Record>, more: seq<Record>, r: nat, n: nat)
    requires r < |raw| && n <= |raw|
    ensures Named(raw + more, r, n) == Named(raw, r, n)
  {
    if n > 0 {
      NamedInPrefix(raw, more, r, n - 1);
    }
  }

  lemma {:induction false} NamedGrows(raw: seq<Record>, r: nat, m: nat, n: nat)
    requires r < |raw| && m <= n <= |raw|
    ensures Named(raw, r, m) <= Named(raw, r, n)
  {
    if m < n {
      NamedGrows(raw, r, m, n - 1);
    }
  }

  /** `r` came in a bulk import, and its user's rows have not been recomputed since. */
  ghost predicate ImportedSince(h: seq<Event>, r: nat)
    requires r < |Run(h).raw|
  {
    var init, e := h[..|h| - 1], h[|h| - 1];
    if r < |Run(init).raw| then e != Rederive(Run(init).raw[r].user) && ImportedSince(init, r) else e.Import?
  }

  /** The link of `r`: none if it came in a bulk import since the last recompute, otherwise
      resolved against the records that arrived before it, or at that recompute if it came
      later. */
  ghost function LinkOf(h: seq<Event>, r: nat): Option<nat>
    requires r < |Run(h).raw|
  {
    var raw := Run(h).raw;
    if ImportedSince(h, r) then None else Parent(raw, r, Min(|raw|, Max(r, RebuiltAt(h, raw[r].user))))
  }

  lemma {:induction false} LinksWithin(h: seq<Event>)
    ensures Within(Run(h).links, |Run(h).raw|)
  {
    if h != [] {
      LinksWithin(h[..|h| - 1]);
      ApplyGrows(Run(h[..|h| - 1]), h[|h| - 1]);
    }
  }

  lemma ParentStays(raw: seq<Record>, raw': seq<Record>, r: nat, n: nat)
    requires raw <= raw' && r < |raw| && n <= |raw|
    ensures Parent(raw', r, n) == Parent(raw, r, n)
  {
    NamedInPrefix(raw, raw'[|raw|..], r, n);
    assert raw' == raw + raw'[|raw|..];
  }

  lemma WriteKeepsLink(db: Db, e: Event, r: nat)
    requires !e.Rederive? && r < |db.raw|
    ensures Row(Apply(db, e).links, r) == Row(db.links, r)
  {
  }

  lemma RecomputedLink(db: Db, user: string, r: nat)
    requires r < |db.raw|
    ensures Row(Rederived(db, user).links, r) == if db.raw[r].user == user then Parent(db.raw, r, |db.raw|) else Row(db.links, r)
  {
  }

  lemma NewLink(db: Db, e: Event)
    requires Within(db.links, |db.raw|) && |db.raw| < |Apply(db, e).raw|
    ensures Row(Apply(db, e).links, |db.raw|) == if e.Import? then None else Parent(Apply(db, e).raw, |db.raw|, |db.raw|)
  {
  }

  lemma LinkOfOld(h: seq<Event>, r: nat)
    requires h != [] && r < |Run(h[..|h| - 1]).raw|
    ensures r < |Run(h).raw|
    ensures var db, e := Run(h[..|h| - 1]), h[|h| - 1];
            LinkOf(h, r) == if e == Rederive(db.raw[r].user) then Parent(db.raw, r, |db.raw|) else LinkOf(h[..|h| - 1], r)
  {
    var init, e := h[..|h| - 1], h[|h| - 1];
    var db, user := Run(init), Run(init).raw[r].user;
    ApplyGrows(db, e);
    RebuiltWithin(init, user);
    ParentStays(db.raw, Run(h).raw, r, Max(r, RebuiltAt(init, user)));
  }

  lemma LinkOfNew(h: seq<Event>, r: nat)
    requires h != [] && r == |Run(h[..|h| - 1]).raw| < |Run(h).raw|
    ensures LinkOf(h, r) == if h[|h| - 1].Import? then None else Parent(Run(h).raw, r, r)
  {
    RebuiltWithin(h[..|h| - 1], Run(h).raw[r].user);
  }

  /** After every history of arrivals, imports, puts and recomputes. */
  lemma {:induction false} LinkIs(h: seq<Event>, r: nat)
    requires r < |Run(h).raw|
    ensures Row(Run(h).links, r) == LinkOf(h, r)
  {
    var init := h[..|h| - 1];
    ApplyGrows(Run(init), h[|h| - 1]);
    if r < |Run(init).raw| {
      LinkIs(init, r);
      LinkOfOld(h, r);
      if h[|h| - 1].Rederive? {
        RecomputedLink(Run(init), h[|h| - 1].user, r);
      } else {
        WriteKeepsLink(Run(init), h[|h| - 1], r);
      }
    } else {
      LinksWithin(init);
      NewLink(Run(init), h[|h| - 1]);
      LinkOfNew(h, r);
    }
  }

  /** Links agree, record by record, exactly when the claim was unambiguous when it was last
      resolved - on arrival, or at the user's last recompute if that came later - if and only
      if it is unambiguous now. An import resolves nothing, so a record imported since agrees
      exactly when its claim is not unambiguous. */
  lemma LinksAgreeIff(h: seq<Event>, user: string, r: nat)
    requires r < |Run(h).raw| && Run(h).raw[r].user == user
    ensures Max(r, RebuiltAt(h, user)) <= |Run(h).raw|
    ensures var db := Run(h);
            Row(db.links, r) == Row(Rederived(db, user).links, r) <==>
              (|Named(db.raw, r, |db.raw|)| == 1 <==>
                 !ImportedSince(h, r) && |Named(db.raw, r, Max(r, RebuiltAt(h, user)))| == 1)
  {
    LinkIs(h, r);
    RebuiltWithin(h, user);
    var db, n := Run(h), Max(r, RebuiltAt(h, user));
    NamedGrows(db.raw, r, n, |db.raw|);
    assert Row(Rederived(db, user).links, r) == LinkAfter(db, user, r);
  }

  /** Each source_ref belongs to one record of the user. */
  ghost predicate RefsUnique(raw: seq<Record>, user: string) {
    forall i, j :: 0 <= i < j < |raw| && raw[i].user == raw[j].user == user && raw[i].sourceRef.Some?
                   ==> raw[i].sourceRef != raw[j].sourceRef
  }

  /** Nobody names a record that arrives later. */
  ghost predicate NamesPointBack(raw: seq<Record>, user: string) {
    forall r: nat, q: nat :: r < |raw| && q < |raw| && raw[r].user == user && Names(raw, r, q) ==> q < r
  }

  /** With unambiguous references and parents arriving first, every record of the user is
      linked exactly as a rebuild would, except the ones imported since the last rebuild that
      name another record. */
  lemma LinksAgree(h: seq<Event>, user: string, r: nat)
    requires r < |Run(h).raw| && Run(h).raw[r].user == user
    requires RefsUnique(Run(h).raw, user) && NamesPointBack(Run(h).raw, user)
    ensures var raw := Run(h).raw;
            Row(Run(h).links, r) == Row(Rederived(Run(h), user).links, r) <==>
              !(ImportedSince(h, r) && exists q: nat :: q < |raw| && Names(raw, r, q))
  {
    var raw := Run(h).raw;
    LinksAgreeIff(h, user, r);
    NamedOnceAndEarly(raw, user, r, Max(r, RebuiltAt(h, user)));
    NamedOnceIff(raw, r);
  }

  lemma NamedOnceIff(raw: seq<Record>, r: nat)
    requires r < |raw| && |Named(raw, r, |raw|)| <= 1
    ensures |Named(raw, r, |raw|)| == 1 <==> exists q: nat :: q < |raw| && Names(raw, r, q)
  {
    if q: nat :| q < |raw| && Names(raw, r, q) {
      NamedComplete(raw, r, |raw|, q);
    }
    if |Named(raw, r, |raw|)| == 1 {
      assert Names(raw, r, Named(raw, r, |raw|)[0]);
    }
  }

  lemma NamesOne(raw: seq<Record>, user: string, r: nat, i: nat, j: nat)
    requires r < |raw| && raw[r].user == user && i < |raw| && j < |raw|
    requires RefsUnique(raw, user) && Names(raw, r, i) && Names(raw, r, j)
    ensures i == j
  {
  }

  lemma NamedOnceAndEarly(raw: seq<Record>, user: string, r: nat, n: nat)
    requires r < |raw| && raw[r].user == user && r <= n <= |raw|
    requires RefsUnique(raw, user) && NamesPointBack(raw, user)
    ensures |Named(raw, r, n)| == 1 <==> |Named(raw, r, |raw|)| == 1
    ensures |Named(raw, r, |raw|)| <= 1
  {
    var early, all := Named(raw, r, n), Named(raw, r, |raw|);
    NamedGrows(raw, r, n, |raw|);
    if |all| >= 1 {
      var first, last := all[0], all[|all| - 1];
      NamesOne(raw, user, r, first, last);
    }
    if |all| == 1 {
      assert Names(raw, r, all[0]);
      NamedComplete(raw, r, n, all[0]);
    }
  }

  // ---------------------------------------------------------------------------
  // Arrival order does not matter to a rebuild
  // ---------------------------------------------------------------------------

  /** `b` holds the records of `a` in another arrival order: `to` and `back` are inverse. */
  ghost predicate Reordered(a: seq<Record>, b: seq<Record>, to: seq<nat>, back: seq<nat>) {
    && |a| == |b| == |to| == |back|
    && (forall i :: 0 <= i < |a| ==> to[i] < |b| && back[to[i]] == i)
    && (forall j :: 0 <= j < |b| ==> back[j] < |a| && to[back[j]] == j)
    && (forall i :: 0 <= i < |a| ==>
          a[i].user == b[to[i]].user && a[i].sourceRef == b[to[i]].sourceRef
          && a[i].prevSourceRef == b[to[i]].prevSourceRef)
  }

  /** A rebuild gives each record the same parent whatever order the records arrived in. */
  lemma RebuildIgnoresArrivalOrder(a: seq<Record>, b: seq<Record>, to: seq<nat>, back: seq<nat>, r: nat, p: nat)
    requires Reordered(a, b, to, back) && r < |a| && p < |a|
    ensures Parent(a, r, |a|) == Some(p) <==> Parent(b, to[r], |b|) == Some(to[p])
  {
    ParentIs(a, r, p);
    ParentIs(b, to[r], to[p]);
    forall q: nat | q < |a|
      ensures IsNamed(a, r, q) <==> IsNamed(b, to[r], to[q])
    {
      assert q == r <==> to[q] == to[r];
    }
    forall j: nat | j < |b|
      ensures IsNamed(b, to[r], j) <==> IsNamed(a, r, back[j])
    {
      assert j == to[back[j]];
    }
  }
}
