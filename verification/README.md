# The derived layer of a memory server, verified

Flashback keeps an append-only table of raw records and derives everything else from it:
which record is superseded, which followed which, episodes, semantic facts, a tree of
summaries, and the context page a query is answered with. The derived layer is kept up one
step at a time, and a rebuild recomputes it. The code promises that the two paths agree -
under batching, concurrency and crashes. This project models both paths and proves where
they agree, and, where they do not, exactly when.

| files | subject |
|---|---|
| `RawStore`, `ReferenceHistory`, `PutHistory`, `MarkRows` | ingest, import, references, supersession: incremental against recomputed |
| `ReferenceRace`, `RaceOutcome` | racing reference writers |
| `Links`, `Lineage` | causal links, and the supersede chain of a record |
| `Episodes`, `Promotion`, `Rebuildable`, `Settling`, `Refreshing`, `Failures` | promotion passes, incremental equals rebuild, and when backlogs drain |
| `SingleFlight`, `LostLock`, `Crashes`, `Recovery`, `HalfRefresh` | passes as interleaved single statements that may die anywhere |
| `Clustering`, `SummaryTree`, `LoneNodes` | the online clusterer and the tree above it |
| `Distillation`, `Starvation`, `LostLineage`, `Facts`, `Distiller` | which episodes are distilled and when, and the facts they become |
| `Reach`, `Context`, `Assembly` | the context page |
| `Phrases`, `Fences`, `PathCodec` | three text algorithms |
| `Prelude`, `Text`, `Batches`, `RecordTypes` | shared vocabulary, and sorted, limited query results |

Tables that the source updates in place are fields of classes (`RecordStore`,
`EpisodeStore`, `CuratedTree`, `DistillStore`, `Cluster`); their methods are proved against
specification functions and predicates, and the results are lemmas about those. Ids are
arrival or creation positions. A query with `ORDER BY ... LIMIT` may return any sequence its
order allows. Embeddings, entity extraction, distillation, the clock and the ranking scores
are parameters, and the provider and the embedder may fail.

## What the proofs turned up

- Staleness compares turn counts, not turn sets. A turn that replaces a covered turn of its own
  session leaves the count unchanged and is never noticed
  (`Rebuildable.SwappedTurnGoesUnnoticed`). As long as passes run to their end, superseded
  rows are the only damage: a quiescent store holds what a rebuild derives exactly when no
  covered row was superseded (`Rebuildable.AgreesIffCoverageIsActive`, `Recovery.OrderlyAgreesIff`).
- A session whose turns are all superseded stays listed as stale with nothing to refresh it
  from. `Refreshing.RefreshedIff` says exactly when that starves another episode: when a
  batch or more of them have smaller ids.
- A pass that dies between an episode's meta and its last edge leaves an episode that counts
  as up to date without all its lineage; no pass restores it until the session's turn count
  changes again or the layer is rebuilt (`Crashes.TornStaysTorn`, `Crashes.WipeHeals`). A refresh
  that dies between transcript and meta is redone by the next pass, unless the turn it had added
  is superseded first: then count and edges are right and the transcript is not
  (`HalfRefresh.StaleTranscriptIsReachable`). `Recovery.CrashedEqualsRebuildIff` is the exact
  condition, for every schedule, under which crashes leave the rebuilt episodes.
- A failed cluster is neither marked nor bumped, and an episode without lineage is skipped
  without being bumped. Once a whole batch is of these two kinds, nothing behind it is ever
  listed in a batch; until then everything is, though a listed episode may be bumped or sit in
  a failing cluster (`Starvation.IdleIff`, `Starvation.TakenIff`). For lost lineage the first
  table decides: a cap's worth of bare episodes ahead starves whatever is behind them, two
  places left do not, while the provider answers (`LostLineage.BareHeadStarves`, `LostLineage.OpenHeadIsPassed`,
  `LostLineage.LastPlaceIff`).
- A reference value that does not come through a put - sent to the ordinary route with a date of
  the caller's, or imported - takes no earlier value off. The incremental marks then differ from a recompute
  (`PutHistory.IngestedValuesDisagree`), and the read after a put need not return what was put
  (`ReferenceHistory.PutReadsBackAnother`, against the assertion at
  crates/server/src/references.rs:294). `ReferenceHistory.AgreementIff` and
  `ReferenceHistory.PutReadsBackIff` are the exact conditions. With values written through puts
  only, a clock that steps back is all that can make the paths disagree
  (`PutHistory.ClockAgreesIff`).
- Ingest keeps the last writer that claimed a record, the recompute the first
  (`MarkRows.RowsAgreeIff`).
- Racing reference writers leave one current value exactly when no two had read the same
  prior (`RaceOutcome.OneCurrentIff`); otherwise it takes a rebuild.
- The comment at crates/server/src/curation.rs:1704-1707 says a rebuild reproduces the same
  fact closures. They depend on the order of distillation (`Facts.ClosureDependsOnOrder`);
  `Facts.ClosuresAgreeIff` says for which orders they agree, and distilling oldest first is
  enough (`Facts.OldestFirstReproduces`).
- The comment at crates/server/src/summaries.rs:144-149 says a lone node carries up to the next
  level. The code gives it no parent and loads the next level by its number, so its branch
  ends there (`LoneNodes.LoneNodeEndsItsBranch`); `LoneNodes.ParentIff` says exactly which nodes
  have a parent.

## Model

| member | source | states |
|---|---|---|
| `RawStore.RecordStore.Ingest` | crates/server/src/routes/records.rs:331-467 | A record is rejected, recognised as a re-sent import, or appended together with its link and its claim's mark, and the tables stay valid; rejected and repeated records change nothing |
| `RawStore.IngestedIs` | crates/server/src/routes/records.rs:331-467 | What an ingest leaves, field by field: refused without content or payload or with a target that is not the user's, ignored when (user, source, source_ref) is taken, otherwise one more row that carries the draft's own fields and times, and the claim's mark |
| `RawStore.RecordStore.ImportRecords` | crates/server/src/routes/records.rs:603-694 | A bulk import skips blank and repeated rows and appends the others, without links and without marks; what was taken and what was skipped add up |
| `RawStore.RecordStore.Import` | crates/server/src/routes/records.rs:616-660 | One imported row: appended without claim, link or mark, or skipped without effect |
| `RawStore.ImportedIs` | crates/server/src/routes/records.rs:616-660 | The same for one imported row, which keeps no claim |
| `RawStore.RecordStore.FindDuplicate` | crates/server/src/routes/records.rs:418-432 | Finds the record that already holds the (user, source, source_ref), if there is one |
| `RawStore.RecordStore.ResolveParent` | crates/server/src/routes/records.rs:77-108 | The link is the only record the claim names among those present; none or several give no link |
| `RawStore.RecordStore.TerminalRow` | crates/server/src/references.rs:132-157 | Returns an unsuperseded state value of the user and identity whose event time is the latest, and none only when there is no unsuperseded value |
| `RawStore.RecordStore.PutValue` | crates/server/src/references.rs:235-299 | Blank identities are refused without effect; otherwise the value read is some terminal value, the new row is appended and exactly the row that was read is marked |
| `RawStore.PutIs` | crates/server/src/references.rs:252-289 | The row a put writes: content, identity, source `reference`, the thread given or else the one of the value read; the mark goes to that value |
| `RawStore.RecordStore.RederiveEdges` | crates/server/src/curation.rs:1210-1280 | The user's links and marks become a function of raw alone, other users' rows are kept, and the tables stay valid |
| `RawStore.RecordStore.RebuiltLinks` | crates/server/src/curation.rs:1213-1237 | Every record of the user gets the parent its claim names if it names exactly one |
| `RawStore.RecordStore.ClaimedMarks` | crates/server/src/curation.rs:1243-1254 | Each record is marked by the first record whose writer claims to replace it |
| `RawStore.RecordStore.RebuiltMarks` | crates/server/src/curation.rs:1255-1281 | Where no claim speaks, a state value is marked by the next one in (event time, ingest time, arrival) order |
| `RawStore.RecomputedMarkIs` | crates/server/src/curation.rs:1239-1281 | A recomputed mark is the first claimant, or without claims the next later value of the same user and identity with no other between them; none if there is neither |
| `RawStore.RecordStore.FindLead` | crates/server/src/curation.rs:1260-1278 | The nearest later value of the same reference |
| `RawStore.IngestKeepsValid` | crates/server/src/routes/records.rs:331-467 | Ingest keeps claims pointing back within one user, imports unique, marks and links within one user |
| `RawStore.ImportKeepsValid` | crates/server/src/routes/records.rs:603-694 | An import keeps the same guarantees on claims, imports, marks and links |
| `RawStore.PutKeepsValid` | crates/server/src/references.rs:235-299 | A put keeps the same guarantees on claims, imports, marks and links |
| `RawStore.RederivedValid` | crates/server/src/curation.rs:1210-1280 | The recompute keeps the same guarantees on claims, imports, marks and links |
| `ReferenceHistory.RecomputeForgetsTheTable` | crates/server/src/curation.rs:1239-1280 | Whatever the derived tables held before, the recompute gives the user the same rows; running it again changes nothing |
| `ReferenceHistory.MarkedIff` | crates/server/src/routes/records.rs:113-134 | After every history of ingests, imports, puts and rebuilds a record is marked if and only if a writer claimed it, a put read it since its user's last rebuild, or that rebuild found a later value |
| `ReferenceHistory.AgreementIff` | crates/server/src/curation.rs:1254-1280 | For every history, whoever wrote the values and whatever their times: the table agrees with a recompute if and only if, claims aside, puts and the last rebuild took off exactly what is replaced by time |
| `ReferenceHistory.PutReadsBackIff` | crates/server/src/references.rs:286-300 | For every history: the read after a put can only return the row just written if and only if every current value but the one the put read is older than the put |
| `ReferenceHistory.PutReadsBackAnother` | crates/server/src/references.rs:286-300 | Two values sent to the ordinary route with dates ahead, then a put: the read returns the other value, which the debug assertion excludes |
| `PutHistory.IngestedValuesDisagree` | crates/server/src/routes/records.rs:271-276 | Two values sent to the ordinary route with advancing times: nothing marks the first, a recompute does |
| `PutHistory.OneCurrent` | crates/server/src/references.rs:132-158 | While values are only written through puts, at most one value of a reference is unsuperseded, whatever the clock did and whenever rebuilds ran |
| `PutHistory.PutReadsBack` | crates/server/src/references.rs:286-300 | Then the read after a put can only return the row just written |
| `PutHistory.HistoryKeeps` | crates/server/src/references.rs:235-299 | Then the marks are the claims, and every value but the one its reference keeps: the latest arrival if it was written since the user's last rebuild, the latest by time otherwise |
| `PutHistory.TicksGiveMonotoneClock` | crates/server/src/references.rs:235-299 | Puts with non-decreasing times give state values whose recompute order is their arrival order |
| `PutHistory.IncrementalEqualsRecomputed` | crates/server/src/references.rs:235-299 | For every history of puts, other ingests and imports with writer claims, and rebuilds, under a non-decreasing clock: the superseded set is exactly what the recompute derives from raw |
| `PutHistory.ClockAgreesIff` | crates/server/src/curation.rs:1254-1280 | With values written through puts only and a clock that may step back, rebuilds included: the two paths agree if and only if, for every reference written since the user's last rebuild, the latest arrival is also the latest by time, or writers claimed both away |
| `PutHistory.ClockStepBackDisagrees` | crates/server/src/curation.rs:1254-1280 | A concrete two-put history with a clock that steps back, where the paths disagree |
| `MarkRows.RowsAre` | crates/server/src/routes/records.rs:113-134 | Under a non-decreasing clock each mark row says: the last claimant if it came since the last rebuild, else the first claimant, else the next value |
| `MarkRows.RowsAgreeIff` | crates/server/src/curation.rs:1243-1254 | Then the rows themselves, replacement and origin, agree with a recompute if and only if since the user's last rebuild no record that already had a claimant got another |
| `ReferenceRace.LatestIsNeverSuperseded` | crates/server/src/references.rs:249-288 | For every interleaving of the read, stamp, insert and upsert steps of many writers that may die anywhere, the latest value of a reference is never marked |
| `ReferenceRace.RebuildHeals` | crates/server/src/curation.rs:1254-1280 | After a rebuild in any reachable state of the race a value is current exactly when it is its reference's latest by (event time, ingest time, arrival) |
| `ReferenceRace.LatestIsUnique` | crates/server/src/curation.rs:1261-1266 | There is only one latest value per reference |
| `ReferenceRace.RaceLeavesTwoCurrent` | crates/server/src/references.rs:249-288 | A schedule in which two writers that both read before either inserts leave two current values |
| `RaceOutcome.OneCurrentIff` | crates/server/src/references.rs:249-288 | For every interleaving of puts, once all have finished and without deaths or rebuilds: a reference has exactly one current value if and only if no two of its puts had read the same prior |
| `RaceOutcome.OneCurrentDespiteDeathsIff` | crates/server/src/references.rs:249-288 | At any moment of any interleaving without rebuilds, writers dying anywhere: a reference has exactly one current value if and only if the puts that got to their mark had read all its values but one |
| `ReferenceRace.ScheduleKeepsInv` | crates/server/src/references.rs:249-288 | In every reachable state each mark points forward in the recompute's order, within one reference |
| `Links.LinkIs` | crates/server/src/routes/records.rs:77-108 | After every history a record's link is what its claim resolved to on arrival, or at the user's last rebuild if later; none if it was imported since |
| `Links.LinksAgreeIff` | crates/server/src/routes/records.rs:77-108 | For every history, imports and rebuilds included: a record's link equals the one a rebuild would give it if and only if its claim is unambiguous now exactly when it was when last resolved; a record imported since the last rebuild was never resolved |
| `Links.LinksAgree` | crates/server/src/curation.rs:1213-1237 | With unique source_refs and parents arriving first, every history links every record as a rebuild would, except exactly the records imported since the last rebuild that name another |
| `Links.ParentIs` | crates/server/src/curation.rs:1222-1236 | A record has a parent exactly when, of the user's earlier and later records alike, its claim names that one by source_ref and no other |
| `Links.RebuildIgnoresArrivalOrder` | crates/server/src/curation.rs:1213-1237 | Under any permutation of arrival order the rebuild gives each record the same parent |
| `Lineage.LineageOf` | crates/server/src/routes/records.rs:1676-1708 | The owner gets exactly the records the anchor replaces and those that replace it, directly or through others, each once, by ingest time; anyone else gets not-found |
| `Lineage.Back` | crates/server/src/routes/records.rs:1686-1691 | The backward walk ends and returns exactly what the anchor replaces |
| `Lineage.Forward` | crates/server/src/routes/records.rs:1692-1696 | The forward walk ends and returns exactly what replaces the anchor |
| `Lineage.Claimants` | crates/server/src/routes/records.rs:1692-1696 | One round of the forward join |
| `Lineage.UnionByIngest` | crates/server/src/routes/records.rs:1697-1700 | The union of the two walks without duplicates, ordered by ingest time |
| `Lineage.ClaimPointsBack` | crates/server/src/routes/records.rs:345-360 | A chain of n claims spans at least n arrivals of one user: both walks are well founded |
| `Lineage.DistanceIsFixed` | crates/server/src/routes/records.rs:345-360 | Two ends of a chain fix its length, so no record is reached twice |
| `Episodes.TranscriptFits` | crates/server/src/curation.rs:208-219 | A transcript never exceeds its budget by more than the ellipsis |
| `Episodes.OrderedIs` | crates/server/src/curation.rs:246-270 | A session's turns in transcript order: exactly the given ones, each once, strictly ordered |
| `Episodes.OrderIs` | crates/server/src/curation.rs:246-270 | That order is by event time, then ingest time, then arrival |
| `Batches.Take` | crates/server/src/curation.rs:663-665 | `ORDER BY ... LIMIT cap` over a strict order: sorted, of the required size, nothing earlier left out |
| `Batches.Smallest` | crates/server/src/curation.rs:392-393 | `ORDER BY key LIMIT cap`: a sorted batch of the required size with nothing smaller left out |
| `Promotion.EpisodeStore.Ingest` | crates/server/src/routes/records.rs:373-450 | An arrival appends the row and its supersession mark, and touches no episode |
| `Promotion.EpisodeStore.LoadSessionTurns` | crates/server/src/curation.rs:246-270 | The active turns of a session, each once, in transcript order |
| `Promotion.EpisodeStore.RenderTranscript` | crates/server/src/curation.rs:208-219 | The text the loop builds is the transcript of the turns, as `Episodes.TranscriptIsLongest` describes it |
| `Episodes.TranscriptIsLongest` | crates/server/src/curation.rs:208-219 | One line per turn, in order - the part of the source behind its last colon, a colon, the content without surrounding whitespace, a newline; as many whole lines as 4000 characters hold, and an ellipsis exactly when a line was dropped |
| `Episodes.EpisodeIs` | crates/server/src/curation.rs:277-345 | A session's episode, field by field: the transcript of exactly the given turns in time order, the first one's time, their number, one edge each |
| `Promotion.EpisodeStore.WriteSessionEpisode` | crates/server/src/curation.rs:277-355 | Whether inserted or refreshed in place, node n ends up as exactly the episode its turns derive, and no other node changes |
| `Promotion.EpisodeStore.WriteNode` | crates/server/src/curation.rs:296-327 | A new row without a session yet, or new content and time over an old one, which keeps its session and turn count and loses its edges |
| `Promotion.EpisodeStore.WriteLineage` | crates/server/src/curation.rs:344-345 | One edge per covered turn |
| `Promotion.EpisodeStore.PromoteSessions` | crates/server/src/curation.rs:376-411 | One new episode per listed session, under a fresh id |
| `Promotion.EpisodeStore.RefreshGrown` | crates/server/src/curation.rs:418-452 | Listed episodes are rewritten from their current turns, except those without any; the count is the number rewritten |
| `Promotion.EpisodeStore.PromoteSolos` | crates/server/src/curation.rs:455-504 | One new episode per listed standalone row |
| `Promotion.EpisodeStore.Promote` | crates/server/src/curation.rs:367-507 | A pass is the three stages in order and keeps the curated layer sound |
| `Episodes.SessionListedIff` | crates/server/src/curation.rs:376-397 | A session waits for its episode exactly when it has an active conversation turn in the register and no episode there |
| `Episodes.StaleListedIff` | crates/server/src/curation.rs:418-438 | An episode is listed for refresh exactly when its turn count is not the number of active turns |
| `Episodes.SoloListedIff` | crates/server/src/curation.rs:455-478 | A standalone row is listed exactly when it is an active document or threadless conversation turn that no episode covers |
| `Episodes.PassTakesInOrder` | crates/server/src/curation.rs:376-478 | Sessions and stale episodes are taken smallest id first, standalone rows oldest first |
| `Episodes.SessionsStage` | crates/server/src/curation.rs:376-411 | New sessions keep the layer sound: faithful nodes, one per session or row |
| `Episodes.RefreshStage` | crates/server/src/curation.rs:418-452 | Refreshes keep the layer sound and change listed nodes only |
| `Episodes.SolosStage` | crates/server/src/curation.rs:455-504 | New standalone episodes keep the layer sound: faithful nodes, one per row |
| `Episodes.PassDrainsSessions` | crates/server/src/curation.rs:376-411 | After a pass the pending sessions are exactly those pending before and not listed |
| `Episodes.PassDrainsSolos` | crates/server/src/curation.rs:455-504 | After a pass the pending standalone rows are exactly those pending before and not listed |
| `Rebuildable.StepKeepsSound` | crates/server/src/curation.rs:367-507 | Every arrival and pass keeps each node what its own covered rows derive and keys unique; growth keeps coverage active |
| `Rebuildable.RunKeepsSound` | crates/server/src/curation.rs:367-507 | Over whole runs every node stays what its own covered rows derive, and keys stay unique |
| `Rebuildable.RunKeepsCoverage` | crates/server/src/curation.rs:367-507 | While arrivals supersede no covered row, every covered row stays active |
| `Rebuildable.EqualCountsEqualTurns` | crates/server/src/curation.rs:426-434 | Under growth only, equal turn counts imply equal turn sets |
| `Rebuildable.AgreesIffCoverageIsActive` | crates/server/src/curation.rs:426-434 | Once nothing is pending, the episodes equal those raw derives if and only if no covered row has been superseded since |
| `Rebuildable.IncrementalEqualsRebuild` | crates/server/src/curation.rs:1304-1355 | Any mix of arrivals and capped passes that supersedes no covered row, run to quiescence, has the same episodes as a wipe followed by passes of any caps |
| `Rebuildable.PassDrains` | crates/server/src/curation.rs:392-393 | Each pass works off a full batch of both promotion backlogs |
| `Rebuildable.IdlePassIff` | crates/server/src/curation.rs:367-507 | A pass changes nothing if and only if no session or standalone row is pending and every episode it lists has no active turn left |
| `Rebuildable.PassDrainsStale` | crates/server/src/curation.rs:418-452 | Without hollow sessions the refresh backlog drains by a full batch per pass |
| `Rebuildable.SwappedTurnGoesUnnoticed` | crates/server/src/curation.rs:426-434 | In every settled store, a turn that supersedes a covered turn of its session leaves the counts equal: nothing is pending and the episodes are no longer what raw derives |
| `Failures.SwapIsReachable` | crates/server/src/curation.rs:426-434 | A history from empty tables that ends so |
| `Failures.HollowIsReachable` | crates/server/src/curation.rs:435-450 | A history from empty tables that leaves a hollow episode ahead of a stale one |
| `Failures.GrownSessionStarves` | crates/server/src/curation.rs:435-450 | From there passes with a cap of one never refresh the stale one |
| `Refreshing.HollowHeadBlocksPass` | crates/server/src/curation.rs:435-450 | A full batch of listed sessions without active turns ahead of an episode keeps it out of the batch, and is still there after the pass |
| `Refreshing.HollowHeadStarves` | crates/server/src/curation.rs:435-450 | Behind such a batch an episode is never refreshed, however many passes run |
| `Refreshing.RefreshedIff` | crates/server/src/curation.rs:418-452 | Passes over one register: a stale episode whose session still has turns becomes what they derive if and only if fewer than a batch of hollow episodes have smaller ids, and then as soon as the places those leave outnumber the other stale ones ahead of it |
| `Settling.PassesSettleIff` | crates/server/src/curation.rs:367-507 | While coverage is active, passes over any registers reach quiescence if and only if in every register their caps add up to its largest backlog |
| `Settling.BacklogAfter` | crates/server/src/curation.rs:391-393 | Each register's backlog is what it was minus the places its own passes had |
| `Settling.RebuildSettles` | crates/server/src/curation.rs:1304-1355 | A wipe and enough passes always end in exactly what raw derives |
| `SingleFlight.SingleFlight` | crates/server/src/curation.rs:865-933 | In every reachable state of interleaved passes, rebuilds and arrivals, with passes dying between any two statements and a pass ending when its lock is lost: one pass at a time, one episode per (register, thread), one covering edge per standalone row |
| `LostLock.LostLockDuplicates` | crates/server/src/curation.rs:882-904 | The step that result leaves out: a schedule in which one lost lock under a live pass gives a session two episodes |
| `SingleFlight.ActionKeepsInv` | crates/server/src/curation.rs:918-933 | Every single statement keeps the invariant behind it |
| `SingleFlight.WriteRowKeepsInv` | crates/server/src/curation.rs:277-327 | Writing the row of a new or refreshed episode keeps the single-flight invariant |
| `SingleFlight.WriteMetaKeepsInv` | crates/server/src/curation.rs:328-339 | Writing the meta, which is what makes a row a session's episode, keeps it: no other node has that session |
| `SingleFlight.RewriteStatementKeepsInv` | crates/server/src/curation.rs:306-345 | Dropping and adding lineage edges keeps it |
| `SingleFlight.SoloKeepsInv` | crates/server/src/curation.rs:481-492 | Inserting a standalone row's episode and linking it keeps it: nothing else covers that row |
| `SingleFlight.LockingKeepsInv` | crates/server/src/curation.rs:882-904 | Taking the lock, failing to take it, and losing it keep it |
| `SingleFlight.ListingKeepsInv` | crates/server/src/curation.rs:376-405 | The listings a pass works through are free of repeats and of sessions or rows that already have an episode |
| `Crashes.CrashLosesOnlyLineage` | crates/server/src/curation.rs:277-354 | While no conversation turn is superseded, in every reachable state: an episode no pass would list has exactly the content, time and count raw derives, and its edges lead to its own turns; only edges can be missing |
| `Crashes.ActionKeepsSafe` | crates/server/src/curation.rs:277-354 | Every statement keeps the invariant behind it |
| `Crashes.StopTears` | crates/server/src/curation.rs:328-345 | Dying between the meta and the last edge leaves an up-to-date looking episode without all its lineage |
| `Crashes.TornStaysTorn` | crates/server/src/curation.rs:426-434 | No number of passes, of any register and cap, relinks it |
| `Recovery.CrashedEqualsRebuildIff` | crates/server/src/curation.rs:1304-1355 | Incremental equals rebuild, for every schedule: any arrivals and claims, any interleaving, passes dying anywhere. Once nothing is pending, the episodes are those of a wipe and re-promotion if and only if no covered row was superseded and every episode covers something, misses no active turn of its session and tells what it covers |
| `Recovery.CrashedAgreesIff` | crates/server/src/curation.rs:426-434 | The same against what raw derives |
| `Recovery.ActionKeepsOwned` | crates/server/src/curation.rs:277-354 | Every statement keeps the edges of an episode within its own session |
| `Recovery.OrderlyAgreesIff` | crates/server/src/curation.rs:367-507 | Whatever arrives: when no pass dies over an episode and none is being written, interleaving alone does no damage - a quiescent world holds what raw derives if and only if no covered row was superseded since |
| `HalfRefresh.StaleTranscriptIsReachable` | crates/server/src/curation.rs:299-339 | A schedule in which a refresh dies between transcript and meta and the turn it had added is superseded: nothing pending, count and edges right, every covered row active, and the transcript still tells the superseded turn |
| `Crashes.WipeHeals` | crates/server/src/curation.rs:1304-1355 | From every reachable state, a wipe and passes to quiescence give exactly the episodes raw derives |
| `Crashes.TearIsReachable` | crates/server/src/curation.rs:328-345 | A concrete schedule that reaches a torn episode with the lock free |
| `Clustering.ClusterForDistill` | crates/server/src/curation.rs:1718-1746 | The groups are a clustering: every index once, ordered, capped, and every membership justified against the groups as they were then |
| `Clustering.BestClusterFor` | crates/server/src/curation.rs:1752-1781 | The earliest open cluster with the highest qualifying score, none only if none qualifies |
| `Clustering.Place` | crates/server/src/curation.rs:1728-1743 | Joins the best cluster or seeds a new one |
| `Clustering.Cluster.Absorb` | crates/server/src/curation.rs:1784-1799 | The cluster's fields stay what its member list determines |
| `Clustering.Cluster.Score` | crates/server/src/curation.rs:1760-1779 | Cosine against the running centroid when both sides are embedded, else overlap with the seed's entities; full clusters never score |
| `Clustering.GroupScoreIs` | crates/server/src/curation.rs:1752-1781 | The score as a number: the sum of products over the norm of the mean, or the common entities over all entities, counted only at or above its threshold and below the size cap |
| `Clustering.ExplainedIsUnique` | crates/server/src/curation.rs:1718-1746 | Only one partition is justified throughout: the description determines the result |
| `Clustering.PrefixStable` | crates/server/src/curation.rs:1718-1746 | A justified partition stays justified when cut to a prefix |
| `Clustering.ClusteringIsOnline` | crates/server/src/curation.rs:1718-1746 | Clustering the first m items equals clustering all and restricting |
| `Clustering.CentroidIsMean` | crates/server/src/curation.rs:1784-1799 | The folded centroid is present exactly when a member is embedded, and is the exact mean of the embedded members |
| `Clustering.MembersMetTheThreshold` | crates/server/src/curation.rs:1752-1781 | Every member but the seed met the threshold against the members before it, with room left: a cosine at or above it where both sides are embedded, the entity overlap with the seed otherwise |
| `Clustering.GroupsRespectTheCap` | crates/server/src/curation.rs:1757-1759 | Groups hold between one and max_size members |
| `SummaryTree.CuratedTree.BuildSummariesWith` | crates/server/src/summaries.rs:104-167 | The finished tree is well formed, levels are bounded by n0 / 2^L, summaries number at most n0 - 1, every level below the top had more nodes than the stop size and is summarised exactly by its clustering, every summary says what the summarizer makes of its children's contents in group order, and it stopped for one of the three reasons |
| `SummaryTree.CuratedTree.BuildRound` | crates/server/src/summaries.rs:112-163 | One round keeps all of that, or writes nothing |
| `SummaryTree.CuratedTree.BuildLevel` | crates/server/src/summaries.rs:137-156 | One parent over every group of two or more, covering exactly it |
| `SummaryTree.CuratedTree.LoadLevel` | crates/server/src/summaries.rs:174-206 | The active nodes of a level in creation order, up to the cap |
| `SummaryTree.LevelItemsAre` | crates/server/src/summaries.rs:202-243 | A loaded node is clustered by its own text's embedding scaled to length one, none for a zero vector, and its own entities |
| `SummaryTree.CuratedTree.WriteSummary` | crates/server/src/summaries.rs:245-290 | A new node one level up with an edge to every child, their highest importance, and what the summarizer makes of all their contents in order |
| `SummaryTree.SameLevelSummariesAreDisjoint` | crates/server/src/summaries.rs:104-167 | Walks from two nodes of one level to a common descendant are the same walk |
| `SummaryTree.WalkDropsLevels` | crates/server/src/summaries.rs:137-156 | Every edge drops exactly one level |
| `SummaryTree.HalvedAtMost` | crates/server/src/summaries.rs:137-156 | A level has at most half as many summaries as nodes |
| `SummaryTree.AddKeepsWellFormed` | crates/server/src/summaries.rs:245-270 | A summary over parentless nodes of one level keeps the tree well formed |
| `SummaryTree.RoundSummarises` | crates/server/src/summaries.rs:137-156 | After a round the level's summaries are exactly its groups of two or more, each with its group's text |
| `SummaryTree.RoundKeepsProgress` | crates/server/src/summaries.rs:104-167 | Summaries so far plus nodes still to group never exceed n0 |
| `SummaryTree.MaxImportanceIs` | crates/server/src/summaries.rs:253-258 | The carried importance is the children's maximum |
| `LoneNodes.ParentIff` | crates/server/src/summaries.rs:144-153 | In a summarised level a loaded node has a parent if and only if its group has two or more members |
| `LoneNodes.LoneNodeEndsItsBranch` | crates/server/src/summaries.rs:144-153 | A tree in which a lone node has no parent and is not loaded at the next level |
| `Distiller.DistillStore.DistillSemantic` | crates/server/src/curation.rs:622-863 | A pass takes the batch and context the queries name, bumps the lone, marks the answered, leaves the rest, and adds exactly the facts of its answered clusters; the counts of facts, closed windows and failed clusters are exact |
| `Distiller.DistillStore.DistillClusters` | crates/server/src/curation.rs:813-860 | Singletons are bumped and triggered clusters distilled, in order |
| `Distiller.DistillStore.DistillCluster` | crates/server/src/curation.rs:1615-1653 | The provider is asked twice; a failing one leaves no trace, an answering one has the cluster's undistilled members marked even when it answers with nothing |
| `Distiller.DistillStore.WriteFacts` | crates/server/src/curation.rs:1660-1713 | One fact per draft |
| `Distiller.DistillStore.WriteFact` | crates/server/src/curation.rs:1665-1712 | The fact's row, edges, date and the windows it closes |
| `Distiller.GatherEvidence` | crates/server/src/curation.rs:1665-1674 | The cited members of the cluster, or the whole cluster when nothing valid is cited |
| `Distiller.GatherLineage` | crates/server/src/curation.rs:1675-1682 | The union of the raw rows and the newest time of the evidence, an episode's time being its end, without one its start, without that its own |
| `Distiller.DistillStore.SupersedeOlder` | crates/server/src/curation.rs:1131-1169 | Exactly the active, strictly older or undated, near facts are retired; the count is exact |
| `Distiller.DistillStore.FindRetired` | crates/server/src/curation.rs:1141-1156 | The facts the query matches |
| `Distiller.DistillStore.LoadLineage` | crates/server/src/curation.rs:772-777 | Listed episodes without lineage are skipped |
| `Distiller.NewFactsHaveLineage` | crates/server/src/curation.rs:1660-1702 | Every fact a pass adds has raw rows and sources, all from one group of two or more with an undistilled member |
| `Distiller.ClustersKeepBuilt` | crates/server/src/curation.rs:1131-1169 | Every pass keeps the supersession edges a forest that fact arrivals alone explain |
| `Distillation.PassOutcome` | crates/server/src/curation.rs:813-860 | Only listed, undistilled episodes with lineage move: alone, they are bumped; in an answered cluster, marked |
| `Distillation.PassReads` | crates/server/src/curation.rs:655-711 | A pass reads the undistilled episodes with the fewest attempts first, oldest first among those, and as context the 200 newest distilled ones, and clusters them by their own embeddings and entities |
| `Distillation.WaitIsBounded` | crates/server/src/curation.rs:658-671 | With cap at least 2, lineage everywhere and a provider that answers, an undistilled e is in a batch within tokens / cap passes, the tokens being the sum of attempts(e) + 1 - attempts(x) over the x not behind e |
| `Distillation.WaitingSpendsTokens` | crates/server/src/curation.rs:827-844 | A pass that leaves e out spends a token of each of its cap members |
| `Batches.FirstIsUnique` | crates/server/src/curation.rs:663-665 | A strict order determines the batch |
| `Starvation.PassIsDeterministic` | crates/server/src/curation.rs:622-863 | Table, settings and provider determine a pass: its batch, context, groups and result |
| `Starvation.IdleIff` | crates/server/src/curation.rs:1615-1636 | A pass changes nothing if and only if it loads fewer than two episodes, or every listed one has no lineage or sits in a cluster of two or more that the provider fails on |
| `Starvation.StuckHeadStarves` | crates/server/src/curation.rs:1615-1636 | Once one pass changes nothing, every later pass with the same settings and provider takes the same batch and changes nothing |
| `Starvation.MovingSpendsAToken` | crates/server/src/curation.rs:827-844 | With no assumption on provider or lineage, a pass that changes anything and leaves e out spends a token of what it moved |
| `Starvation.TakenIff` | crates/server/src/curation.rs:658-671 | With a provider that behaves the same on every pass, an undistilled episode is taken if and only if no pass before that changes nothing, and then within as many passes as there are tokens |
| `Starvation.FailingProviderStarves` | crates/server/src/curation.rs:1615-1636 | From a concrete table, a provider that fails on the first two episodes keeps the third out for good |
| `Starvation.LostLineageStarves` | crates/server/src/curation.rs:772-777 | From a concrete table, two episodes without lineage keep the third out for good |
| `LostLineage.BareHeadStarves` | crates/server/src/curation.rs:772-777 | If as many episodes without lineage as the cap are ahead of an episode in the first table, it is never taken, whatever the provider does |
| `LostLineage.OpenHeadIsPassed` | crates/server/src/curation.rs:658-671 | If they leave two places, or one while some listed context episode has lineage, and the provider answers, it is taken within as many passes as there are tokens |
| `LostLineage.LastPlaceIff` | crates/server/src/curation.rs:658-671 | If they leave one place and come before all but one of the others ahead, it is taken if and only if nothing with lineage is ahead of it or some listed context episode has lineage |
| `LostLineage.LastPlaceIdlesIff` | crates/server/src/curation.rs:772-777 | One pass with one place left: it changes nothing if and only if the bare ones come before all but one of the others ahead and no listed context episode has lineage |
| `LostLineage.HasContextIff` | crates/server/src/curation.rs:677-711 | The context listing holds an episode with lineage if and only if fewer than 200 distilled episodes without lineage are newer than some distilled one with lineage |
| `LostLineage.TwoAheadGiveWay` | crates/server/src/curation.rs:658-671 | A table where two with lineage come before the bare one: the last place is not lost though the context is empty |
| `Distillation.ConsumedAtMostOnce` | crates/server/src/curation.rs:1638-1657 | Over any run of passes, promotions and refreshes, one version of an episode triggers at most one distilled cluster |
| `Facts.FactLineage` | crates/server/src/curation.rs:1665-1702 | Sources are a non-empty part of the cluster - what was cited of it, or all of it - raw rows are exactly theirs and not none, and the date is the newest over the sources of end, without one start, without that own time; none exactly when no source has any of the three |
| `Facts.EdgesAre` | crates/server/src/curation.rs:1131-1169 | Over every history of facts, n retires o if and only if n is the first later arrival that is strictly newer and near enough |
| `Facts.BuildIsForest` | crates/server/src/curation.rs:1131-1169 | At most one incoming edge each, from a strictly later dated fact to an earlier or undated one |
| `Facts.WalksMeetAtFinal` | crates/server/src/curation.rs:1131-1169 | Every superseded-by walk ends, and where it cannot go on it has reached the one active fact for its start |
| `Facts.RetiredIff` | crates/server/src/curation.rs:1131-1169 | A fact is retired if and only if some later arrival qualifies |
| `Facts.ClosuresAgreeIff` | crates/server/src/curation.rs:1704-1711 | Two orders of the same facts close the same windows if and only if each fact has a later qualifier in one exactly when it has one in the other |
| `Facts.OldestFirstRetires` | crates/server/src/curation.rs:1704-1711 | Distilled oldest first under one similarity, a fact is retired if and only if any other qualifies: the closures are a function of the facts |
| `Facts.OldestFirstReproduces` | crates/server/src/curation.rs:1704-1711 | Two such orders of the same facts close the same windows |
| `Facts.ClosureDependsOnOrder` | crates/server/src/curation.rs:1704-1711 | Two facts that close a window in one order and none in the other |
| `Assembly.Assemble` | crates/server/src/routes/records.rs:984-1241 | The limit is 50 unless asked otherwise, and from 1 to 200; each branch answers with its page filled up to that limit and cut to the budget, with a warning exactly when it was cut; every answer has distinct, owned, active records outside the excluded thread, within limit and budget, and synthesis that does not lead into that thread |
| `Assembly.Serve` | crates/server/src/routes/records.rs:910-982 | A page becomes an answer: the records that fit, and a warning with budget, kept and dropped exactly when some were cut |
| `Assembly.RankedPage` | crates/server/src/routes/records.rs:1060-1232 | Curated records, then references in front, then the backstop, under one limit |
| `Assembly.RecentRows` | crates/server/src/routes/records.rs:953-976 | The rows a request without a query lists: active, in scope, of the register if one is set |
| `Assembly.CrossModeRows` | crates/server/src/routes/records.rs:1266-1318 | The rows a cross-register request ranks: active, in scope, of any register |
| `Assembly.CuratedNodes` | crates/server/src/routes/records.rs:1063-1079 | The curated query's nodes: not retired, of the user and register, with evidence on the topic, not of the excluded thread |
| `Assembly.Synthesize` | crates/server/src/routes/records.rs:1126-1150 | The first five facts and summaries in rank order that stay out of the thread, each with its newest rows |
| `Assembly.Expand` | crates/server/src/routes/records.rs:1157-1170 | Rows of the ranked nodes, each node up to the capacity left |
| `Assembly.PushNew` | crates/server/src/routes/records.rs:1164-1169 | New rows appended once; the limit is never hit mid-node |
| `Assembly.FetchInOrder` | crates/server/src/routes/records.rs:1465-1498 | The servable rows, in the order given |
| `Assembly.Biasing` | crates/server/src/routes/records.rs:1188-1209 | References the page lacks go in front, cut to the limit |
| `Assembly.ReferenceRows` | crates/server/src/routes/records.rs:1348-1396 | The reference query's rows: active state values of the user and register, matching topic and thread, outside the excluded thread |
| `Assembly.TopUp` | crates/server/src/routes/records.rs:1214-1231 | The best rows in scope that the page lacks, as many as fit |
| `Assembly.BackstopRows` | crates/server/src/routes/records.rs:1503-1578 | The backstop query's rows: the same scope for any record not on the page yet |
| `Assembly.Clamp` | crates/server/src/routes/records.rs:910-932 | The longest prefix within what the reserved characters leave of the budget, but at least one record; the warning says how much was cut |
| `Assembly.IsCrossMode` | crates/server/src/routes/records.rs:1247-1259 | Cross-register exactly when the one register or some of several is `all` in any case, or two names differ |
| `Assembly.NodeTouches` | crates/server/src/routes/records.rs:1398-1421 | Whether some row in the node's lineage lives in the thread |
| `Assembly.RawIdsUnder` | crates/server/src/routes/records.rs:1433-1460 | The five newest rows the node's lineage reaches, newest first |
| `Reach.Tree` | crates/server/src/routes/records.rs:1402-1408 | The recursive query returns exactly the nodes a walk reaches, and ends on cyclic graphs too |
| `Reach.Evidence` | crates/server/src/routes/records.rs:1438-1452 | Exactly the rows that nodes below this one were derived from |
| `Context.PageIsAdmissible` | crates/server/src/routes/records.rs:1126-1241 | Whatever the three sources hold and however they rank: no repeats, within the limit, all owned, active and outside the thread |
| `Context.PageIsFull` | crates/server/src/routes/records.rs:1214-1231 | A short page already holds everything in scope |
| `Context.PageComesFrom` | crates/server/src/routes/records.rs:1063-1078 | A record matches topic, thread and register, or was reached from a node of the register with evidence on the topic |
| `Context.CuratedRecordsKeepRank` | crates/server/src/routes/records.rs:1491-1496 | Curated records stay in the rank order of the best node that reaches them |
| `Context.SynthesisStaysOutside` | crates/server/src/routes/records.rs:1126-1150 | No item reaches the excluded thread through summaries and lineage, and drill ids lie in that lineage |
| `Context.ExpansionFits` | crates/server/src/routes/records.rs:1157-1170 | The limit binds during expansion |
| `Context.ClampedIsAdmissible` | crates/server/src/routes/records.rs:910-932 | Clamping keeps the page admissible |
| `Phrases.ExtractPhrases` | crates/nlp/src/heuristic.rs:78-105 | The loop computes the phrases of the text, which `Phrases.PhrasesAre` describes |
| `Phrases.PhrasesAre` | crates/nlp/src/heuristic.rs:78-116 | Exactly the maximal runs of two or more kept words, each as its words in order with one space between neighbours, each once, in order of first occurrence |
| `Phrases.Flush` | crates/nlp/src/heuristic.rs:107-116 | A run of two or more words is a phrase - its words in order, one space between neighbours - added once |
| `Phrases.ExtractEntities` | crates/nlp/src/heuristic.rs:27-63 | The loop computes the entities of the text, which `Phrases.EntitiesAre` describes |
| `Phrases.EntitiesAre` | crates/nlp/src/heuristic.rs:27-63 | No entity twice; exactly the capitalised tokens in lower case that are on no list, and the phrases; none in a blank text |
| `Phrases.SplitIs` | crates/nlp/src/heuristic.rs:83 | Pieces hold no separator and with the separators put back are the text |
| `Phrases.NormalizedIs` | crates/nlp/src/heuristic.rs:65-68 | Normalizing keeps the words of the text in order, one space between neighbours and none at the ends |
| `Phrases.WordsAre` | crates/nlp/src/heuristic.rs:78-100 | The text is cut at everything but letters, digits, hyphens and underscores; a piece contributes its trimmed lower-case word, or breaks the phrase when that is empty, on a list, or all digits |
| `Fences.ObjectOfRaw` | crates/nlp/src/provider/remote.rs:342-355 | For every answer whose first { precedes its last }, the result is exactly that slice of the answer, whatever fences and whitespace surround it |
| `Fences.NoObject` | crates/nlp/src/provider/remote.rs:342-355 | An answer without such a pair of braces comes back without its fences and surrounding whitespace, as `Fences.UnfencedIs` describes |
| `Fences.UnfencedIs` | crates/nlp/src/provider/remote.rs:342-355 | Without its fences: what stands behind an opening fence and before the closing ones, without surrounding whitespace |
| `Fences.Unwraps` | crates/nlp/src/provider/remote.rs:342-355 | Unwrapping inverts wrapping |
| `Fences.ResultIsSlice` | crates/nlp/src/provider/remote.rs:342-355 | The result is a contiguous slice of the answer |
| `Fences.ParsesThroughWrapping` | crates/nlp/src/provider/remote.rs:331-374 | Both parsers: whatever a decoder makes of an object it makes of every wrapping of it |
| `PathCodec.EncSegment` | crates/mcp/src/main.rs:427-438 | The loop computes the encoding |
| `PathCodec.RoundTrip` | crates/mcp/src/main.rs:427-438 | Decoding per section 2.1 of RFC 3986 undoes it on every byte string |
| `PathCodec.OutputIsClean` | crates/mcp/src/main.rs:427-438 | Unreserved characters of section 2.3 of RFC 3986, and percent signs followed by two upper-case hex digits |
| `PathCodec.ValuePathIs` | crates/mcp/src/main.rs:274-328 | A value path is the state root, the kind, a slash and the key, each segment decoding to its name; a history path adds its ending |
| `PathCodec.ValuePathIsInjective` | crates/mcp/src/main.rs:274-278 | One (kind, key), one value path |
| `PathCodec.HistoryPathIsInjective` | crates/mcp/src/main.rs:324-328 | One (kind, key), one history path |
| `PathCodec.PathsAreDisjoint` | crates/mcp/src/main.rs:312 | Value, history and listing paths never coincide |
| `PathCodec.OpaqueIff` | crates/mcp/src/main.rs:422-438 | A segment survives dot-segment removal if and only if the name is not itself one or two dots |

## Left out

- The hash chain over raw records and its verifier: they live in database triggers.
- Embedding inference, provider prompts, HTTP and JSON decoding: functions that may fail.
- Scores inside `ORDER BY` (cosine, ts_rank, decay) and the decay clock: any ranking is allowed.
- Rounding: `f32` is modelled as `real`, and the Euclidean norm as any function.
- Columns that only ride along: titles, topics of episodes, importance of episodes, embeddings' storage, entity edges.
- The register of a record: a fixed field; classification and the default fill of `rederive_edges` are not modelled.
- Users: episodes, distillation and facts are modelled for one user, facts and episodes to distil for one register.
- Ties that SQL leaves open are any order in `LIMIT` queries, and arrival order in transcripts, where both event and ingest time are equal.
- The timestamps inside an episode's meta are read by `Distillation` as fields of the episode, not traced back to its turns.
- A pass that fails part way through distillation: `Distiller` runs a pass to its end; dying passes are modelled for promotion only.
- SingleFlight.SingleFlight: a pass ends when its lock is lost. In the source the lock sits on its own connection (crates/server/src/curation.rs:882-896) while the pass writes through the pool, so a lock session that is lost under a live pass is a step that result does not cover; `LostLock.LostLockDuplicates` shows what it does.
- The advisory lock hashes user names: a collision only serialises two users and is not modelled.
- Curation's claim that an idle pass does no distillation: a later pass orders episodes differently, so it is not a property.
- `list_kind_inner`, `history_inner`, rendering and views of references, auth, modes, proposals, admin and CLI: easy members.
- `extractive_summary` and `derive_title`: a parameter turns the children's contents and importance into a summary's text, and titles are left out.
- Unicode tables, lower-casing, UTF-8 lengths and the tokenizer regex: parameters of `Phrases`; white space is the Unicode White_Space set.
- Reach.Tree: duplicates are dropped as `UNION` does, but the order in which rows are found is not modelled.
- RaceOutcome.OneCurrentIff: a put that dies after its insert and before its mark leaves the value it read current; runs with such deaths are covered by `RaceOutcome.OneCurrentDespiteDeathsIff`, runs with rebuilds by `ReferenceRace.RebuildHeals`.
- ReferenceRace.LatestIsNeverSuperseded: the race is between puts; values that come another way are covered one write at a time, by `ReferenceHistory.AgreementIff`.
- RawStore.RecordStore.ClaimedMarks: the SQL gives the claims no order; the model inserts them in arrival order, so the first arrival keeps the row.
- RawStore.RecordStore.ImportRecords: the embeddings and registers of imported rows; a batch is one transaction, which histories show as consecutive imports.
- Starvation.TakenIff: the provider and the settings are the same on every pass; what a provider that recovers does is covered by `Distillation.WaitIsBounded` from then on.
- Refreshing.RefreshedIff: one register, one cap and no arrivals between the passes.
- ReferenceRace.RebuildHeals: histories there make no writer claims; with claims the recompute is described by `ReferenceHistory.AgreementIff`.
- LostLineage.LastPlaceIff: where two or more with lineage come before a bare one, whether they are marked or bumped depends on how they cluster; `LostLineage.LastPlaceIdlesIff` then says that the pass moves on, and the same question is asked of the next table.
- Crashes.CrashLosesOnlyLineage: requires that arrivals supersede no threaded conversation turn, since otherwise the count itself misleads.
