/** How a race between reference writers ends while nothing is rebuilt: with one current
    value exactly when the puts that got to mark what they read account for all the others,
    which, when nobody dies, means that no two puts had read the same one. */
module RaceOutcome {
  import opened Prelude
  import opened RawStore
  import opened ReferenceRace

  ghost predicate Undisturbed(step: Step) {
    !step.Rebuild? && !step.Die?
  }

  /** Some writer has still to mark what `row` replaced. */
  ghost predicate Owed(s: World, row: nat, prior: nat) {
    exists w :: w in s.writers && s.writers[w] == HasInserted(Some(prior), row)
  }

  ghost predicate ReadBack(s: World, row: nat, prior: nat) {
    prior < row < |s.db.raw| && SameReference(s.db.raw[prior], s.db.raw[row])
  }

  /** The marks are what finished puts had read. */
  ghost predicate Tracked(s: World) {
    && (forall row: nat :: row in s.priors <==> row < |s.db.raw| && IsState(s.db.raw[row]))
    && (forall row :: row in s.priors && s.priors[row].Some? ==>
          var prior := s.priors[row].value;
          ReadBack(s, row, prior) && (prior in s.db.marks || Owed(s, row, prior)))
    && (forall k :: k in s.db.marks ==> IsRead(s, k))
    && (forall w :: w in s.writers && s.writers[w].HasInserted? ==>
          s.writers[w].row in s.priors && s.priors[s.writers[w].row] == s.writers[w].prior)
  }

  ghost predicate IsRead(s: World, k: nat) {
    exists row :: row in s.priors && s.priors[row] == Some(k)
  }

  // ---------------------------------------------------------------------------
  // Every step keeps it
  // ---------------------------------------------------------------------------

  lemma OwedElsewhere(s: World, s': World, w: nat, row: nat, prior: nat)
    requires Owed(s, row, prior) && WriterAt(s, w) != HasInserted(Some(prior), row)
    requires w in s'.writers && s'.writers == s.writers[w := s'.writers[w]]
    ensures Owed(s', row, prior)
  {
    var v :| v in s.writers && s.writers[v] == HasInserted(Some(prior), row);
    assert s'.writers[v] == s.writers[v];
  }

  lemma InsertKeepsTracked(s: World, step: Step)
    requires Inv(s) && Tracked(s) && Enabled(s, step) && step.Insert?
    ensures Tracked(After(s, step))
  {
    var s', wr, n := After(s, step), WriterAt(s, step.w), |s.db.raw|;
    assert WriterOk(s, wr);
    assert s'.db.marks == s.db.marks;
    forall row | row in s'.priors && s'.priors[row].Some?
      ensures ReadBack(s', row, s'.priors[row].value)
      ensures s'.priors[row].value in s'.db.marks || Owed(s', row, s'.priors[row].value)
    {
      if row == n {
        assert s'.writers[step.w] == HasInserted(wr.prior, n);
      } else {
        assert ReadBack(s, row, s.priors[row].value);
        if Owed(s, row, s.priors[row].value) { OwedElsewhere(s, s', step.w, row, s.priors[row].value); }
      }
    }
    forall k | k in s'.db.marks
      ensures IsRead(s', k)
    {
      ReadStays(s, s', k);
    }
  }

  lemma ReadStays(s: World, s': World, k: nat)
    requires IsRead(s, k) && forall row :: row in s.priors && s.priors[row] == Some(k) ==> row in s'.priors && s'.priors[row] == Some(k)
    ensures IsRead(s', k)
  {
  }

  lemma UpsertKeepsTracked(s: World, step: Step)
    requires Inv(s) && Tracked(s) && Enabled(s, step) && step.Upsert?
    ensures Tracked(After(s, step))
  {
    var s', wr := After(s, step), WriterAt(s, step.w);
    forall row | row in s'.priors && s'.priors[row].Some?
      ensures ReadBack(s', row, s'.priors[row].value)
      ensures s'.priors[row].value in s'.db.marks || Owed(s', row, s'.priors[row].value)
    {
      var prior := s.priors[row].value;
      assert ReadBack(s, row, prior);
      if prior !in s'.db.marks { OwedElsewhere(s, s', step.w, row, prior); }
    }
    forall k | k in s'.db.marks
      ensures IsRead(s', k)
    {
      if k in s.db.marks { ReadStays(s, s', k); }
    }
  }

  lemma QuietStepKeepsTracked(s: World, step: Step)
    requires Inv(s) && Tracked(s) && Enabled(s, step) && (step.Tick? || step.Read? || step.Stamp?)
    ensures Tracked(After(s, step))
  {
    var s' := After(s, step);
    forall row | row in s'.priors && s'.priors[row].Some?
      ensures ReadBack(s', row, s'.priors[row].value)
      ensures s'.priors[row].value in s'.db.marks || Owed(s', row, s'.priors[row].value)
    {
      assert ReadBack(s, row, s.priors[row].value);
      if Owed(s, row, s.priors[row].value) && !step.Tick? { OwedElsewhere(s, s', step.w, row, s.priors[row].value); }
    }
    forall k | k in s'.db.marks
      ensures IsRead(s', k)
    {
      ReadStays(s, s', k);
    }
  }

  lemma IngestKeepsTracked(s: World, step: Step)
    requires Inv(s) && Tracked(s) && Enabled(s, step) && step.IngestOther?
    ensures Tracked(After(s, step))
  {
    var s' := After(s, step);
    assert s'.db.marks == s.db.marks;
    forall row | row in s'.priors && s'.priors[row].Some?
      ensures ReadBack(s', row, s'.priors[row].value)
      ensures s'.priors[row].value in s'.db.marks || Owed(s', row, s'.priors[row].value)
    {
      assert ReadBack(s, row, s.priors[row].value);
    }
    forall k | k in s'.db.marks
      ensures IsRead(s', k)
    {
      ReadStays(s, s', k);
    }
  }

  lemma StepKeepsTracked(s: World, step: Step)
    requires Inv(s) && Tracked(s) && Enabled(s, step) && Undisturbed(step)
    ensures Tracked(After(s, step))
  {
    match step {
      case Insert(_, _, _, _) => InsertKeepsTracked(s, step);
      case Upsert(_) => UpsertKeepsTracked(s, step);
      case IngestOther(_, _) => IngestKeepsTracked(s, step);
      case _ => QuietStepKeepsTracked(s, step);
    }
  }

  lemma {:induction false} ScheduleKeepsTracked(ws: seq<World>, steps: seq<Step>, k: nat)
    requires Schedule(ws, steps) && k <= |steps| && forall j :: 0 <= j < |steps| ==> Undisturbed(steps[j])
    ensures Tracked(ws[k])
  {
    if k > 0 {
      ScheduleKeepsTracked(ws, steps, k - 1);
      ScheduleKeepsInv(ws, steps, k - 1);
      assert Enabled(ws[k - 1], steps[k - 1]);
      StepKeepsTracked(ws[k - 1], steps[k - 1]);
    }
  }

  // ---------------------------------------------------------------------------
  // Counting
  // ---------------------------------------------------------------------------

  /** The values of the reference that `k` is a value of. */
  function Values(s: World, k: nat): set<nat>
    requires k < |s.db.raw|
  {
    set r: nat | r < |s.db.raw| && SameReference(s.db.raw[k], s.db.raw[r])
  }

  function CurrentValues(s: World, k: nat): set<nat>
    requires k < |s.db.raw|
  {
    set r | r in Values(s, k) && r !in s.db.marks
  }

  /** What the puts that wrote these rows had read. */
  function Priors(priors: map<nat, Option<nat>>, rows: set<nat>): set<Option<nat>> {
    set r | r in rows && r in priors :: priors[r]
  }

  ghost predicate AllDifferent(priors: map<nat, Option<nat>>, rows: set<nat>) {
    forall i, j :: i in rows && j in rows && i in priors && j in priors && priors[i] == priors[j] ==> i == j
  }

  /** As many different reads as rows exactly when no two rows share one. */
  lemma {:induction false} DifferentIff(priors: map<nat, Option<nat>>, rows: set<nat>)
    requires forall r :: r in rows ==> r in priors
    ensures |Priors(priors, rows)| <= |rows|
    ensures |Priors(priors, rows)| == |rows| <==> AllDifferent(priors, rows)
    decreases |rows|
  {
    if r :| r in rows {
      var rest := rows - {r};
      DifferentIff(priors, rest);
      assert Priors(priors, rows) == Priors(priors, rest) + {priors[r]};
      assert AllDifferent(priors, rows) <==> AllDifferent(priors, rest) && priors[r] !in Priors(priors, rest);
    }
  }

  /** The first value of a reference was written by a put that read nothing. */
  lemma FirstReadNothing(s: World, k: nat)
    requires Tracked(s) && k < |s.db.raw| && IsState(s.db.raw[k])
    ensures None in Priors(s.priors, Values(s, k))
  {
    assert k in Values(s, k);
    FirstFrom(s, k, k);
  }

  lemma {:induction false} FirstFrom(s: World, k: nat, r: nat)
    requires Tracked(s) && k < |s.db.raw| && IsState(s.db.raw[k]) && r in Values(s, k)
    ensures None in Priors(s.priors, Values(s, k))
    decreases r
  {
    assert r in s.priors;
    if s.priors[r].Some? {
      assert ReadBack(s, r, s.priors[r].value);
      FirstFrom(s, k, s.priors[r].value);
    }
  }

  ghost predicate Settled(s: World) {
    forall w :: w in s.writers ==> !s.writers[w].HasInserted?
  }

  /** Once every put has marked what it read, a value is marked exactly when some put of its
      reference had read it. */
  lemma MarkedIff(s: World, k: nat, r: nat)
    requires Tracked(s) && Settled(s) && k < |s.db.raw| && r in Values(s, k)
    ensures r in s.db.marks <==> Some(r) in Priors(s.priors, Values(s, k))
  {
    if r in s.db.marks {
      assert IsRead(s, r);
      var row :| row in s.priors && s.priors[row] == Some(r);
      assert ReadBack(s, row, r);
      assert row in Values(s, k);
    }
    if Some(r) in Priors(s.priors, Values(s, k)) {
      var row :| row in Values(s, k) && row in s.priors && s.priors[row] == Some(r);
      assert r in s.db.marks || Owed(s, row, r);
    }
  }

  function Somes(rows: set<nat>): set<Option<nat>> {
    set r | r in rows :: Some(r)
  }

  lemma {:induction false} SomesSize(rows: set<nat>)
    ensures |Somes(rows)| == |rows|
    decreases |rows|
  {
    if r :| r in rows {
      SomesSize(rows - {r});
      assert Somes(rows) == Somes(rows - {r}) + {Some(r)};
    }
  }

  lemma PriorsAre(s: World, k: nat)
    requires Tracked(s) && Settled(s) && k < |s.db.raw| && IsState(s.db.raw[k])
    ensures Priors(s.priors, Values(s, k)) == {None} + Somes(Values(s, k) - CurrentValues(s, k))
  {
    FirstReadNothing(s, k);
    var values := Values(s, k);
    forall o
      ensures o in Priors(s.priors, values) <==> o in {None} + Somes(values - CurrentValues(s, k))
    {
      if o.Some? && o in Priors(s.priors, values) {
        var row :| row in values && row in s.priors && s.priors[row] == o;
        assert ReadBack(s, row, o.value);
        assert o.value in values;
        MarkedIff(s, k, o.value);
      }
      if o.Some? && o in Somes(values - CurrentValues(s, k)) {
        MarkedIff(s, k, o.value);
      }
    }
  }

  /** Any interleaving of puts, once all have finished: a reference has exactly one current
      value if and only if no two of its puts had read the same value (or both none). */
  lemma OneCurrentIff(ws: seq<World>, steps: seq<Step>, k: nat)
    requires Schedule(ws, steps) && forall j :: 0 <= j < |steps| ==> Undisturbed(steps[j])
    requires Settled(ws[|steps|])
    requires k < |ws[|steps|].db.raw| && IsState(ws[|steps|].db.raw[k])
    ensures var s := ws[|steps|]; |CurrentValues(s, k)| == 1 <==> AllDifferent(s.priors, Values(s, k))
  {
    var s := ws[|steps|];
    ScheduleKeepsTracked(ws, steps, |steps|);
    var values, current := Values(s, k), CurrentValues(s, k);
    DifferentIff(s.priors, values);
    PriorsAre(s, k);
    SomesSize(values - current);
    assert None !in Somes(values - current);
    SubsetSizes(current, values);
    assert |values - current| == |values| - |current|;
  }

  // ---------------------------------------------------------------------------
  // Writers that die
  // ---------------------------------------------------------------------------

  /** Some put that got to its mark had read `k`. */
  ghost predicate FinishedRead(s: World, k: nat) {
    exists row :: row in s.finished && row in s.priors && s.priors[row] == Some(k)
  }

  /** The marks are what finished puts had read, no more and no less. */
  ghost predicate Accounted(s: World) {
    && (forall row :: row in s.priors ==> row < |s.db.raw|)
    && (forall row :: row in s.finished ==> row in s.priors)
    && (forall w :: w in s.writers && s.writers[w].HasInserted? ==>
          s.writers[w].row in s.priors && s.priors[s.writers[w].row] == s.writers[w].prior)
    && (forall k: nat :: k in s.db.marks <==> FinishedRead(s, k))
  }

  lemma InsertKeepsAccounts(s: World, step: Step)
    requires Accounted(s) && Enabled(s, step) && step.Insert?
    ensures Accounted(After(s, step))
  {
    var s' := After(s, step);
    assert s'.db.marks == s.db.marks;
    forall k: nat
      ensures FinishedRead(s', k) <==> FinishedRead(s, k)
    {
      if FinishedRead(s, k) {
        var row :| row in s.finished && row in s.priors && s.priors[row] == Some(k);
        assert s'.priors[row] == Some(k);
      }
    }
  }

  lemma UpsertKeepsAccounts(s: World, step: Step)
    requires Accounted(s) && Enabled(s, step) && step.Upsert?
    ensures Accounted(After(s, step))
  {
    var s', wr := After(s, step), WriterAt(s, step.w);
    forall k: nat
      ensures FinishedRead(s', k) <==> FinishedRead(s, k) || wr.prior == Some(k)
    {
      if FinishedRead(s, k) {
        var row :| row in s.finished && row in s.priors && s.priors[row] == Some(k);
        assert row in s'.finished;
      }
      if wr.prior == Some(k) { assert wr.row in s'.finished && s'.priors[wr.row] == Some(k); }
    }
  }

  lemma OtherKeepsAccounts(s: World, step: Step)
    requires Accounted(s) && Enabled(s, step) && !step.Rebuild? && !step.Insert? && !step.Upsert?
    ensures Accounted(After(s, step))
  {
    var s' := After(s, step);
    assert s'.priors == s.priors && s'.finished == s.finished;
    assert s'.db.marks == s.db.marks;
    forall k: nat
      ensures FinishedRead(s', k) <==> FinishedRead(s, k)
    {
    }
  }

  lemma StepKeepsAccounts(s: World, step: Step)
    requires Accounted(s) && Enabled(s, step) && !step.Rebuild?
    ensures Accounted(After(s, step))
  {
    if step.Insert? {
      InsertKeepsAccounts(s, step);
    } else if step.Upsert? {
      UpsertKeepsAccounts(s, step);
    } else {
      OtherKeepsAccounts(s, step);
    }
  }

  lemma {:induction false} ScheduleKeepsAccounts(ws: seq<World>, steps: seq<Step>, k: nat)
    requires Schedule(ws, steps) && k <= |steps| && forall j :: 0 <= j < |steps| ==> !steps[j].Rebuild?
    ensures Accounted(ws[k])
  {
    if k > 0 {
      ScheduleKeepsAccounts(ws, steps, k - 1);
      assert Enabled(ws[k - 1], steps[k - 1]);
      StepKeepsAccounts(ws[k - 1], steps[k - 1]);
    }
  }

  /** The different values of the reference that finished puts had read. */
  ghost function FinishedReads(s: World, k: nat): set<nat>
    requires k < |s.db.raw|
  {
    set r | r in Values(s, k) && FinishedRead(s, r)
  }

  /** Any interleaving, with writers dying anywhere and at any moment: a reference has
      exactly one current value if and only if the puts that got to their mark had read all
      its values but one. */
  lemma OneCurrentDespiteDeathsIff(ws: seq<World>, steps: seq<Step>, k: nat)
    requires Schedule(ws, steps) && forall j :: 0 <= j < |steps| ==> !steps[j].Rebuild?
    requires k < |ws[|steps|].db.raw|
    ensures var s := ws[|steps|]; |CurrentValues(s, k)| == 1 <==> |FinishedReads(s, k)| + 1 == |Values(s, k)|
  {
    var s := ws[|steps|];
    ScheduleKeepsAccounts(ws, steps, |steps|);
    assert CurrentValues(s, k) == Values(s, k) - FinishedReads(s, k);
    SubsetSizes(FinishedReads(s, k), Values(s, k));
    assert |Values(s, k) - FinishedReads(s, k)| == |Values(s, k)| - |FinishedReads(s, k)|;
  }
}
