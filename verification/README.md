# A verified model of OARadar's bookkeeping

OARadar keeps a SQLite ledger, a file tree and several work queues in step while it is interrupted,
retried and run again. This project models the parts of it where that is hard and proves what they
promise, in Dafny. `dafny verify dfyconfig.toml` checks all of it.

Each component comes as functions that say what a step does, lemmas about those functions over all
inputs and all runs, and, where the program changes things step by step, classes and methods with the
program's loops that are proved to do what the functions say.

| modules | component |
|---|---|
| ArchivePaths, ArchiveTree, ArchiveMigration, MigrationCampaign, ArchiveMigrator | moving an archive directory and rewriting its paths in four tables, with an undo for every failure |
| InventoryScan, InventoryRuns, InventoryDrift, InventoryVerdict, InventoryWorker | the resumable scan of the Done list |
| CollectionProtocol, CollectionClaims | starting, pausing, resuming, claiming and finishing collection jobs |
| AuditEvidence, AuditVerdict, AuditLedger, AuditProtocol, AuditRequests, AuditBatch, AuditTermination, AuditWithoutJob, AuditTruth, AuditExecutor | the online audit: evidence, counters under any interleaving, termination, and what is recorded |
| DoneConvergence, ConvergenceLaws, ConvergenceReport, ConvergenceSettles, ConvergenceTables, ConvergencePlanner | the convergence planner |
| SampleSelection, SampleDraw, SampleSpacing, SampleSelector | the representative sample |
| AliasGroups, BuildTotals | attachment aliases and build totals |
| ExactQuote | quote recovery |
| Calendar, BackfillWindows, BackfillCampaign | backfill windows |
| DuplicatePlan, DuplicatePlanner, DuplicateChoice, DuplicateMerge, DuplicateRepair, DuplicateOutcome, RepairDatabase, Relocation | the duplicate-attachment repair |
| PendingSync, PendingTallies, PendingHistory, PendingErasure, PendingStore | pending discovery and cleanup |
| ParseArtifacts | which parse product of a content object is in use |
| Witnesses | concrete inputs on which the code falls short of what one would expect |
| TextOrder, Sequences, Wrappers | order of texts; sequences and counting; options and results |

## How it is modelled

- A database session that commits is one step on the rows; a rollback restores the rows at its start.
  Where another process can act between two sessions, it may: as events of an interleaving, or as a
  function that rewrites the tables.
- A hash stands for what was hashed, so equal hashes mean equal contents.
- Browser pages, clocks, inspections, parsers, file faults, delivery and classification facts, name
  comparisons and process liveness are parameters. Statements hold for all of them.
- Taken from the table definitions: `oa_item_key`, `idempotency_key`, `occurrence_key` and
  (`source_file_id`, `schema_version`) are unique, a file is unique by item, attachment key and role, new
  audit items are `pending`, new occurrences are `active`.
- Attachment sizes are absent or not negative and hashes are absent or non-empty, as the sorted evidence
  takes them to be.

## What the proofs found

Where a statement one would expect is not true of the code, the model keeps the code and the condition
under which it holds is proved, with a concrete input where it does not (module Witnesses, or beside the theorem).

- A failed archive migration may leave directories it made for the parent of the target
  (`ArchiveMigration.FailureRestores`), and a stored path follows a move only if its text spells the moved
  directory (`ArchivePaths.ReplaceMovesParts`). Another item that shares the directory loses its paths
  (`ArchiveMigration.MigrationLeavesOthers`).
- The clean-up after a timed-out download can lose a pause request (`CollectionProtocol.PauseIsNeverLostIff`).
  With the web worker's claims two jobs can be active (`CollectionClaims.OneActiveIff`) and two workers can
  share a job (`CollectionClaims.ExclusiveIff`); the row of a job does not always show that it is held
  (`CollectionClaims.RowsDoNotShowHolder`).
- An inventory of a source without pages never completes (`InventoryRuns.ResumedScanEqualsOnePass`). A page that
  changed in the middle of the recorded ones is not noticed (`InventoryDrift.HoldsAllKeysIff`).
- The repair of persisted audit evidence ignores the depth limit (`AuditEvidence.RepairOfInspectedRow`); an
  audit without its job row may never complete (`AuditWithoutJob.CompletesWithoutJobIff`); the
  completing transaction does not look again for requeued items (`AuditProtocol.AlwaysBalancedIff`).
- A relocation in which two folded records share a path that no live row uses cannot complete
  (`Relocation.ResumeCompletesIff`).
- A `disabled` pending synchronisation uses up a sighting (`PendingHistory.TaskIff`), and an occurrence
  that was cleaned and rediscovered is never erased again (`PendingErasure.ErasesOverRunsIff`).
- An active parse artifact can be rejected and stay active (`ParseArtifacts.ActiveStaysValidIff`). The rule
  that does hold is that a valid artifact is active.

## Model

| member | source | states |
|---|---|---|
| `ArchivePaths.ReplaceUndo` | src/oa_knowledge/archive_paths.py:110-116 | Rewriting a stored path and then rewriting it with the two prefixes swapped gives it back, on every text that was not already under the new prefix |
| `ArchivePaths.ReplaceMovesParts` | src/oa_knowledge/archive_paths.py:110-116 | A textual rewrite moves the components of a path exactly when the text spells the old prefix; a differently spelled path below it keeps pointing at the vacated place |
| `ArchivePaths.NormalTextIsTracked` | src/oa_knowledge/archive_paths.py:110-116 | Paths written in normal form are always tracked by the rewrite |
| `ArchivePaths.PartsOfPosix` | src/oa_knowledge/archive_paths.py:61-70 | Normal text reads back as the components it was made from, the view the two layout recognisers take |
| `ArchiveTree.RenameAt` | src/oa_knowledge/archive_reconciliation.py:228-229 | A directory rename moves every entry of the tree and leaves nothing behind |
| `ArchiveTree.RenameUndone` | src/oa_knowledge/archive_reconciliation.py:249-251 | Renaming back restores the tree exactly |
| `ArchiveTree.RenameKeepsFingerprint` | src/oa_knowledge/archive_reconciliation.py:225-231 | The fingerprint taken before the rename is found after it, so that check fails only when bytes really changed |
| `ArchiveTree.RenameWellFormed` | src/oa_knowledge/archive_reconciliation.py:228-229 | After a rename every entry still has its parents |
| `ArchiveTree.MakeDirsOnlyAdds` | src/oa_knowledge/archive_reconciliation.py:222-222 | Making the parents of the target adds directories and changes nothing else |
| `ArchiveMigration.StepShape` | src/oa_knowledge/archive_reconciliation.py:199-252 | What one migration step comes to, for every point at which it can fail and for an undo that works or not |
| `ArchiveMigration.FailureRestores` | src/oa_knowledge/archive_reconciliation.py:247-252 | A failed step leaves every row as it was; the tree keeps exactly its old entries plus directories made for the parent of the target, so it is the old tree if and only if that parent was there, unless undoing the rename fails as well |
| `ArchiveMigration.FailedUndoKeepsBytes` | src/oa_knowledge/archive_reconciliation.py:247-252 | Even when the undo rename fails the rows are the old ones and no file content is lost |
| `ArchiveMigration.MigrationCommutesWithLookup` | src/oa_knowledge/archive_reconciliation.py:228-246 | After a successful step every path stored for the item, in its file, manifest and batch rows, resolves in the new tree to what it resolved to before if and only if its old text spelled the moved directory or lay outside it, and is unchanged outside it; the own path of the item leads to the moved directory and to everything below it |
| `ArchiveMigration.MigrationLeavesOthers` | src/oa_knowledge/archive_reconciliation.py:228-246 | Rows of other items are unchanged in all tables; what they name stays reachable if and only if it lies outside the moved directory, and the old directory is gone |
| `ArchiveMigration.MigrationKeepsFiles` | src/oa_knowledge/archive_reconciliation.py:199-252 | Whatever happens in a step, the file contents on disk are the same up to a one-to-one change of place |
| `ArchiveMigration.MigrationKeepsStore` | src/oa_knowledge/archive_reconciliation.py:199-252 | Every step leaves a well-formed tree, and rows under the same identifiers in every table |
| `MigrationCampaign.CampaignCounts` | src/oa_knowledge/archive_reconciliation.py:276-295 | After k items, k = migrated + already_correct + skipped + failed, and migrated + failed are exactly the items in the legacy layout |
| `MigrationCampaign.DryRunPredictsRealRun` | src/oa_knowledge/archive_reconciliation.py:285-294 | The migrated count of a dry run is the migrated + failed count of the real run |
| `MigrationCampaign.CampaignCountsMean` | src/oa_knowledge/archive_reconciliation.py:276-295 | The counts read off the items: migrated are those with a legacy path before and a current one after, failed those that still have their legacy path, already_correct and skipped those that began with a current path or with neither; a dry run announces every legacy item as migrated |
| `MigrationCampaign.CampaignKeepsFiles` | src/oa_knowledge/archive_reconciliation.py:277-295 | Over a whole campaign with any failures, and with items that share a target, no file content is lost or copied |
| `MigrationCampaign.SecondRunMigratesNothing` | src/oa_knowledge/archive_reconciliation.py:263-295 | If nothing but the data itself stopped items in the first run, a second run migrates nothing |
| `MigrationCampaign.StuckStays` | src/oa_knowledge/archive_reconciliation.py:217-222 | An item that cannot be migrated cannot be migrated after the step of another item either |
| `MigrationCampaign.MakeDirsBlocked` | src/oa_knowledge/archive_reconciliation.py:222-222 | Making directories is blocked exactly by an entry on the way that is no directory |
| `ArchiveMigrator.Migrator.MigrateOneItem` | src/oa_knowledge/archive_reconciliation.py:199-252 | The step in place, with a working copy of the rows that only a commit publishes: tree, rows and outcome are those of the specified step |
| `ArchiveMigrator.Migrator.MoveDirectory` | src/oa_knowledge/archive_reconciliation.py:222-252 | From the making of the parents to commit, or rollback and undo, for each operation that may raise |
| `ArchiveMigrator.Migrator.MigrateArchivePaths` | src/oa_knowledge/archive_reconciliation.py:263-295 | The campaign loop leaves the store and the counts of the specified campaign, and the counts are those of the items as they were and are |
| `ArchiveMigrator.RewriteFileRows` | src/oa_knowledge/archive_reconciliation.py:234-236 | The loop over the file rows rewrites exactly the rows of the item |
| `ArchiveMigrator.RewriteManifestRows` | src/oa_knowledge/archive_reconciliation.py:238-240 | The manifest row of the item is rewritten, and no other |
| `ArchiveMigrator.RewriteBatchRows` | src/oa_knowledge/archive_reconciliation.py:241-243 | The batch rows of the item are rewritten, and no others |
| `InventoryScan.UpsertKeeps` | src/oa_knowledge/full_manifest.py:35-73 | A page write adds exactly the keys of the page and never changes what is known about the download of an existing row |
| `InventoryScan.UpsertWrites` | src/oa_knowledge/full_manifest.py:35-73 | A row of the page has the detail of its last line there and the number of the page |
| `InventoryScan.BatchKeepsGood` | src/oa_knowledge/done_collection.py:210-311 | Whatever happens around it - pauses, drift, lost login, a crash at any read - a batch leaves a checkpoint whose keys are the union of pages 1 to next_page - 1 since the last restart, each with a manifest row |
| `InventoryScan.ScanKeepsGood` | src/oa_knowledge/done_collection.py:270-292 | The same for every page of the loop, at each commit |
| `InventoryRuns.ResumedScanEqualsOnePass` | src/oa_knowledge/done_collection.py:252-307 | However a job is broken up and resumed, if it ends completed it holds exactly the keys that one uninterrupted pass over the stable source holds, each with a manifest row; and it ends so only if the source has a page, no page is rejected and its total is the number of distinct keys |
| `InventoryRuns.RunKeepsFaithful` | src/oa_knowledge/done_collection.py:210-327 | Over any run of batches, pauses, resumes and crashes on a stable source the recorded pages are pages of the source, with its totals |
| `InventoryRuns.CalmBatch` | src/oa_knowledge/done_collection.py:270-307 | An undisturbed batch gets ten pages further, or to the end and to the verdict |
| `InventoryRuns.CalmJobFinishes` | src/oa_knowledge/done_collection.py:270-307 | A fresh job on a calm source advances ten pages a batch and gives its verdict in the batch that reaches the end |
| `InventoryRuns.StoppedJobFinishes` | src/oa_knowledge/done_collection.py:141-186 | A job that was paused, lost its login or failed in any run on a stable source can be resumed, a failed one from the first page and any other from its checkpoint, and then comes to its verdict in as many calm batches as it has tens of pages left |
| `InventoryRuns.ActMeans` | src/oa_knowledge/done_collection.py:141-186 | Pausing, resuming, recovering and starting over change the status and the checkpoint as requested or refuse, and touch no manifest row |
| `InventoryVerdict.VerdictIff` | src/oa_knowledge/done_collection.py:293-305 | A batch that comes to the end of the list completes the job if and only if the list at its closing look, whatever it is by then, has the total, the number of pages and the first page that the scan went by, and the keys are as many as the total; otherwise it fails, and exactly this verdict is noted |
| `InventoryVerdict.PageInterrupted` | src/oa_knowledge/done_collection.py:270-292 | A pause wanted before a page means that no page is read any more; a lost login ends as auth_required, an error or a page that is gone as failed, a crash leaves the job running; in each case the checkpoint holds the pages read until then and no verdict is noted |
| `InventoryVerdict.PauseDuringPage` | src/oa_knowledge/done_collection.py:270-292 | A pause wanted while a page is read: that page is kept and no other is read |
| `InventoryVerdict.BatchHandsOver` | src/oa_knowledge/done_collection.py:293-296 | After ten pages, with more to come, the job is queued for the next batch, or paused if that is wanted |
| `InventoryVerdict.CloseInterrupted` | src/oa_knowledge/done_collection.py:297-311 | When the closing look fails all pages are kept and there is no verdict |
| `InventoryVerdict.BoundaryInterrupted` | src/oa_knowledge/done_collection.py:228-255 | A batch whose first look, or look at the last recorded page, fails changes no checkpoint |
| `InventoryDrift.DriftIsSeenIff` | src/oa_knowledge/done_collection.py:256-269 | An undisturbed batch starts again from page 1 if and only if a total, the first page or the last recorded page differs from the checkpoint; otherwise it keeps every recorded page and goes on behind them; at the end of the list the number of keys alone decides whether it completes |
| `InventoryDrift.HoldsAllKeysIff` | src/oa_knowledge/done_collection.py:256-269 | A batch that reaches the end of the list holds exactly the keys of the source if and only if the recorded pages before the one where it resumes add no key, and every key of the source pages they stand for is on a recorded page before or a source page from there on |
| `InventoryDrift.CompletedHoldsAllKeysIff` | src/oa_knowledge/done_collection.py:270-307 | When the source has as many keys as it announces, a batch that completes the job holds exactly its keys if and only if the recorded pages before the one where it resumed add none |
| `InventoryDrift.MiddleDriftIsMissed` | src/oa_knowledge/done_collection.py:256-269 | A job that completes with a key the source no longer has, because a page in the middle changed |
| `InventoryWorker.InventoryLedger.RunInventory` | src/oa_knowledge/done_collection.py:210-311 | The worker, which keeps parameters in memory while others change the stored ones, leaves the ledger of the specified batch |
| `InventoryWorker.InventoryLedger.PageLoop` | src/oa_knowledge/done_collection.py:270-292 | The page loop: what is committed page by page, and where it stops |
| `InventoryWorker.InventoryLedger.UpsertManifestPage` | src/oa_knowledge/full_manifest.py:35-73 | The loop over the items of a page updates or inserts their manifest rows as specified |
| `InventoryWorker.InventoryLedger.FinishCollection` | src/oa_knowledge/done_collection.py:314-327 | A batch ends with the job queued exactly when that is wanted and no pause is; a job wanted paused is paused instead |
| `CollectionProtocol.AlwaysSafe` | src/oa_knowledge/done_collection.py:83-186 | While only desktop workers claim: over any interleaving of starts, controls, claims, batches, heartbeats and finishes at most one collection job is queued or running, and a session owns its running job |
| `CollectionProtocol.SessionsAreExclusive` | src/oa_knowledge/desktop_collection.py:38-60 | While only desktop workers claim, two workers never work on the same job |
| `CollectionProtocol.PauseIsNeverLostIff` | src/oa_knowledge/done_collection.py:281-327 | Throughout a run, in any interleaving, pauses of running jobs survive every later parameter write until a resume, and such a job is queued only by recovery of a dead worker, if and only if no clean-up after a timed-out download puts back, on a job wanted paused, parameters read before the request |
| `CollectionProtocol.CleanUpKeepsPauseIff` | src/oa_knowledge/done_collection.py:404-414 | The clean-up after a timed-out download, which reads and writes outside an immediate transaction, loses a pause exactly when that was committed between its read and its write |
| `CollectionProtocol.PauseLostByCleanUp` | src/oa_knowledge/done_collection.py:404-414 | A run in which such a pause is forgotten and the job is queued again |
| `CollectionProtocol.RecoveredJobPauses` | src/oa_knowledge/done_collection.py:218-227 | A recovered inventory or download that is wanted paused does no work: its next batch pauses it |
| `CollectionProtocol.RecoveryPutsBack` | src/oa_knowledge/web/worker.py:188-208 | A recovery puts back an active job that no live worker holds, and no other |
| `CollectionProtocol.CrashIsRecovered` | src/oa_knowledge/web/worker.py:188-208 | The job of a worker that has died goes back to the queue whatever the worker was doing |
| `CollectionProtocol.CheckpointStores` | src/oa_knowledge/done_collection.py:281-291 | A checkpoint stores what it is given and keeps the stored pause flag |
| `CollectionProtocol.PickedMeans` | src/oa_knowledge/web/worker.py:1862-1886 | The web worker picks up only a queued job that nobody else holds |
| `CollectionClaims.OneActiveIff` | src/oa_knowledge/web/worker.py:1862-1897 | With the claims of the web worker as well: at most one job is active throughout a run if and only if no worker writes to a job that has become inactive while another one is active |
| `CollectionClaims.ExclusiveIff` | src/oa_knowledge/web/worker.py:1862-1897 | With them, no two workers ever share a job if and only if no claim takes a job that a live session still holds |
| `CollectionClaims.TakesHeldIff` | src/oa_knowledge/web/worker.py:1862-1897 | As long as each session is named in the row of its job, a claim takes a held job if and only if it is the write of a web worker on a row whose owner works on it |
| `CollectionClaims.RowsDoNotShowHolder` | src/oa_knowledge/done_collection.py:141-186 | After a pause and a resume of a job that is worked on, status, parameters and owner are those of an unclaimed job, so no claim can see in them that it takes a held one |
| `CollectionClaims.LoginIsRevived` | src/oa_knowledge/done_collection.py:431-435 | A login claimed by the web worker, paused, and run all the same beside the inventory started meanwhile |
| `CollectionClaims.JobIsClaimedTwice` | src/oa_knowledge/web/worker.py:1888-1897 | A job claimed by a desktop worker between the read and the write of the web worker: both work on it |
| `CollectionProtocol.CollectionLedger.StartCollection` | src/oa_knowledge/done_collection.py:83-138 | Starting refuses while any job is active or an unfinished job of the kind waits, otherwise adds one queued job |
| `CollectionProtocol.CollectionLedger.ControlCollection` | src/oa_knowledge/done_collection.py:141-186 | Pausing and resuming change the job as specified, or refuse |
| `CollectionProtocol.CollectionLedger.ClaimDesktopJob` | src/oa_knowledge/desktop_collection.py:38-60 | A claim takes the first job that the worker may have |
| `CollectionProtocol.CollectionLedger.FinishCollection` | src/oa_knowledge/done_collection.py:314-327 | The end of a batch, with the pause flag read in the same transaction |
| `AuditEvidence.SortedDependsOnSet` | src/oa_knowledge/online_audit.py:63-75 | Sorted evidence depends only on the set of rows, not on order or repetition |
| `AuditEvidence.ExplainDependsOnSets` | src/oa_knowledge/online_audit.py:78-109 | The comparison depends on the two sets only; exact_match holds iff they are equal, and historical_retained iff online is a proper subset of local |
| `AuditEvidence.ExplainMeans` | src/oa_knowledge/online_audit.py:78-109 | When one set is not part of the other, the verdict is the first of: as many rows of each role and key, of each role and bytes, of each key and bytes, of the same bytes; or inventory_changed |
| `AuditEvidence.ViewsSee` | src/oa_knowledge/online_audit.py:96-108 | What the four comparisons see of a row |
| `AuditEvidence.FingerprintDependsOnSet` | src/oa_knowledge/online_audit.py:121-135 | Both fingerprints depend on the set of rows only, and equal content fingerprints mean equal rows |
| `AuditEvidence.PersistedEvidenceIsEnough` | src/oa_knowledge/online_audit.py:71-118 | Evidence that was stored and read back is the same set of rows, with the same fingerprints, and is stored the same way again |
| `AuditEvidence.MatchedMeansSameRows` | src/oa_knowledge/online_audit.py:138-156 | The status matched says that every row is hashed and both sides have the same rows |
| `AuditVerdict.StatusMeans` | src/oa_knowledge/online_audit.py:138-156 | When each status is given: depth limit first, then missing downloads, then different roles and keys row for row, then kept history, then unhashed or different bytes |
| `AuditEvidence.RepairIsIdempotent` | src/oa_knowledge/online_audit.py:159-199 | A second repair changes nothing, and a repair that reports no change left the row as it was |
| `AuditEvidence.RepairOfInspectedRow` | src/oa_knowledge/online_audit.py:159-199 | The repair leaves a freshly inspected row alone, unless the row stopped at the depth limit with online evidence properly inside the local one |
| `AuditVerdict.RepairedMeans` | src/oa_knowledge/online_audit.py:159-199 | A repaired row has the reason and the status of its stored rows, and kept history whenever the online rows are properly included |
| `AuditVerdict.RepairReads` | src/oa_knowledge/online_audit.py:71-118 | Evidence that was never stored counts as none, evidence that cannot be read leaves the row as it is |
| `AuditEvidence.RepairOverwritesDepthLimit` | src/oa_knowledge/online_audit.py:159-199 | An inspected row whose depth-limit status the repair overwrites |
| `AuditEvidence.PersistedItem.RepairFromPersistedEvidence` | src/oa_knowledge/online_audit.py:159-199 | The repair in place changes the summary columns as specified and says whether it did |
| `AuditLedger.BalancedMeans` | src/oa_knowledge/online_audit.py:360-369 | What the counters of a balanced ledger say: total = items, completed = matched + mismatch + access_failed, and completed = total exactly when no item is open |
| `AuditLedger.EnrollKeepsBalanced` | src/oa_knowledge/online_audit.py:372-427 | Enrolling new manifest rows keeps the ledger balanced and reopens a completed run |
| `AuditLedger.BeginKeepsBalanced` | src/oa_knowledge/online_audit.py:578-629 | The opening transaction of a batch - enrolment, recovery, requeue of items without a reason, repair - keeps it balanced |
| `AuditLedger.StartKeepsBalanced` | src/oa_knowledge/online_audit.py:640-644 | So does marking an item as running |
| `AuditLedger.RequeuesKeepBalanced` | src/oa_knowledge/online_audit.py:455-561 | So do the requeues after a supplement and after a recapture |
| `AuditLedger.CloseIsHonestIff` | src/oa_knowledge/online_audit.py:764-802 | The completing transaction keeps the ledger honest exactly when no item is open at that moment: it does not look again for items requeued since the check before it |
| `AuditProtocol.AlwaysBalancedIff` | src/oa_knowledge/online_audit.py:234-803 | Over any run of transactions of one executor and of others - enrolment, both requeues, pause, resume, failure, supersession, crash - the ledger is balanced after every one if and only if no completing transaction meets an open item |
| `AuditProtocol.StepKeepsGood` | src/oa_knowledge/online_audit.py:360-803 | Every single transaction keeps the ledger balanced, except a completion while an item is open |
| `AuditProtocol.UndisturbedCloseIsHonest` | src/oa_knowledge/online_audit.py:741-802 | A completion right after the check for pending items is honest |
| `AuditProtocol.NoItemWhilePaused` | src/oa_knowledge/online_audit.py:633-639 | Once a pause is wanted, in any run without a resume no further item is begun and the next turn of the loop pauses the run |
| `AuditRequests.SupplementMeans` | src/oa_knowledge/online_audit.py:455-503 | After a supplement the item is looked at again exactly if it was missing a download; the run goes on unless it is paused or about to be |
| `AuditRequests.RecaptureMeans` | src/oa_knowledge/online_audit.py:506-561 | After a recapture the missing rows are enrolled and the item is looked at again exactly if its status was final, unless the run has failed or is superseded |
| `AuditRequests.EnrolledMeans` | src/oa_knowledge/online_audit.py:372-427 | Enrolled items are pending, without a look or a reason, under the keys that were missing |
| `AuditRequests.PauseMeans` | src/oa_knowledge/online_audit.py:270-281 | A pause is asked of a queued or running audit only, which is paused at once while its job is waiting |
| `AuditRequests.ResumeMeans` | src/oa_knowledge/online_audit.py:284-299 | A paused or failed audit goes on when resumed, if it has its job; any other is left alone |
| `AuditRequests.SupersedeMeans` | src/oa_knowledge/online_audit.py:301-315 | A new audit supersedes a run that is not over, and no other |
| `AuditBatch.BatchIsBalanced` | src/oa_knowledge/online_audit.py:564-803 | However others act between its transactions, one call ends, and with a balanced ledger exactly unless it completed the run with an open item |
| `AuditBatch.QuietBatch` | src/oa_knowledge/online_audit.py:564-803 | With nobody else acting, a call is the batch whose repetition finishes an audit |
| `AuditTermination.BatchProgresses` | src/oa_knowledge/online_audit.py:564-803 | An undisturbed batch completes the run, spends the retry round, or leaves less to do: the lexicographic measure |
| `AuditTermination.NewAuditCompletes` | src/oa_knowledge/online_audit.py:564-803 | A new run over a fixed manifest with its job row is completed after finitely many batches, with at most two looks at each item however often inspections fail |
| `AuditTruth.AuditTellsTheTruth` | src/oa_knowledge/online_audit.py:564-803 | A new audit without repairs ends with the manifest rows as its items, each with what its first look observed, or the second when the first one failed, and access_failed only when both did; its counters are the numbers of manifest rows with such a look, however the work is cut into batches |
| `AuditTruth.CallRecordsLooks` | src/oa_knowledge/online_audit.py:564-803 | With others acting before each transaction, each final status that a call leaves is that of the last look at the item, or one it was given to repair it with |
| `AuditTruth.OpeningMeans` | src/oa_knowledge/online_audit.py:578-629 | The opening transaction takes back interrupted items and verdicts without a reason, applies the repairs, and leaves every other item |
| `AuditWithoutJob.OneLostItemIsEnough` | src/oa_knowledge/online_audit.py:766-772 | Without its job row a run is not completed by any batch while a single item, whatever the others are, cannot be reached |
| `AuditWithoutJob.BatchCompletesIff` | src/oa_knowledge/online_audit.py:764-802 | A batch completes a run without a job row if and only if no pause is wanted and its work leaves no item pending or unreachable |
| `AuditWithoutJob.CompletesWithoutJobIff` | src/oa_knowledge/online_audit.py:564-803 | Repeated batches complete such a run if and only if every item to be inspected, those enrolled on the way included, has a later look that does not raise |
| `AuditExecutor.AuditRun.RefreshRunCounts` | src/oa_knowledge/online_audit.py:360-369 | The pass over the statuses leaves the specified counters |
| `AuditExecutor.AuditRun.EnrollNewManifestItems` | src/oa_knowledge/online_audit.py:372-427 | The loop adds exactly the missing rows, as pending; the ledger stays balanced and then has every manifest row |
| `AuditExecutor.AuditRun.BeginBatch` | src/oa_knowledge/online_audit.py:578-629 | The opening transaction in place |
| `AuditExecutor.AuditRun.FinishInspection` | src/oa_knowledge/online_audit.py:646-735 | Recording an inspection: the item has the observed status, or that of an item that could not be reached, and one look more; the others are as they were, and the counters are right |
| `AuditExecutor.AuditRun.CloseRun` | src/oa_knowledge/online_audit.py:764-802 | The retry round leaves no unreachable item; a completion changes no item and keeps the balance exactly when no item is open |
| `AuditExecutor.AuditRun.ExecuteAudit` | src/oa_knowledge/online_audit.py:564-803 | A call in place, with others acting before each transaction and the pause looked at before each item, leaves the specified ledger, balanced unless it completed with an open item |
| `ConvergenceLaws.PlanCounts` | src/oa_knowledge/done_convergence.py:87-138 | Every manifest row is counted as eligible or excluded, and each planned count is the number of planned actions of its kind |
| `ConvergenceReport.HonestReport` | src/oa_knowledge/done_convergence.py:143-173 | Whatever other workers do before each batch of fifty, as long as identifiers stay unique: the reported created count is the number of positions at which the table got one queued row more under a key that was not there, and the requeued count the number at which one task went from inactive to queued |
| `ConvergenceReport.EveryPositionIsHonest` | src/oa_knowledge/done_convergence.py:143-173 | At every position one such row is added, or one such task is restarted, or the tables are unchanged |
| `ConvergenceReport.EffectIsChange` | src/oa_knowledge/done_convergence.py:150-172 | What is noted for an action is what happened to the tables |
| `ConvergenceLaws.ApplyMeans` | src/oa_knowledge/done_convergence.py:150-172 | An action inserts one row under a key that was not there, resets one task that was neither queued nor running, or does nothing |
| `ConvergenceLaws.DroppedIff` | src/oa_knowledge/done_convergence.py:150-172 | An action is dropped if and only if its row is gone or excluded by now, its task gone or active, or its key taken |
| `ConvergenceLaws.EffectIdem` | src/oa_knowledge/done_convergence.py:150-172 | In every position of an application under interference: an insertion comes from its create action, and a reset hits no queued or running task |
| `ConvergenceLaws.NoKeyInsertedTwice` | src/oa_knowledge/done_convergence.py:161-172 | No idempotency key is inserted twice in one application, even if others delete rows meanwhile |
| `ConvergenceLaws.PlannedActionsAreApart` | src/oa_knowledge/done_convergence.py:87-138 | Every planned action belongs to a manifest row of its own |
| `ConvergenceSettles.PlanIsExact` | src/oa_knowledge/done_convergence.py:87-138 | The planned actions are exactly those decided for the rows |
| `ConvergenceSettles.OwnActionSettles` | src/oa_knowledge/done_convergence.py:143-173 | Applying the action of a row settles the row, and no decision about another row changes |
| `ConvergenceSettles.EveryRowSettles` | src/oa_knowledge/done_convergence.py:44-141 | After an undisturbed application every row is decided as before, except that rows that needed an action need none |
| `ConvergenceSettles.SecondPlanIsIdle` | src/oa_knowledge/done_convergence.py:44-141 | A second plan creates and requeues nothing and reports the same eligible, excluded and attention |
| `ConvergenceSettles.NothingIsForgotten` | src/oa_knowledge/done_convergence.py:87-141 | After one application every eligible undelivered row has an active task of its phase, is counted as attention, or has a convergence task that did not fail |
| `ConvergenceTables.FailedTaskIsRetriedIff` | src/oa_knowledge/done_convergence.py:115-122 | After an undisturbed application the failed newest task of a wanted, unclassified row is queued again if and only if it was recoverable or had one of three former errors; otherwise it is as it was and the row needs a person |
| `ConvergenceTables.TaskFate` | src/oa_knowledge/done_convergence.py:103-135 | Every task is still there, queued again if its row asks for that by the rules told of the tables, and as it was otherwise |
| `ConvergenceTables.NewTasksIff` | src/oa_knowledge/done_convergence.py:123-138 | New tasks are those of the rows that need one: to capture the item exactly while its archive is not ready, and to take stock of its attachments otherwise |
| `ConvergenceTables.RowCounts` | src/oa_knowledge/done_convergence.py:87-124 | The counts excluded, eligible and attention are the numbers of rows that are excluded, that are not, and that need a person |
| `ConvergencePlanner.Planner.Plan` | src/oa_knowledge/done_convergence.py:44-141 | The loop over the snapshot and the application: report and tables are the specified ones, in a dry run nothing changes |
| `ConvergencePlanner.Planner.ApplyActions` | src/oa_knowledge/done_convergence.py:143-173 | The batches of fifty with other workers in between leave the specified tables and counts |
| `ConvergencePlanner.Planner.ApplyBatch` | src/oa_knowledge/done_convergence.py:146-173 | One batch: others act before it and not inside it |
| `ConvergencePlanner.Planner.ApplyAction` | src/oa_knowledge/done_convergence.py:150-172 | One action in place, checked against the tables of that moment |
| `SampleSelection.SpotsAdvance` | src/oa_knowledge/backfill_mvp.py:120-125 | Evenly spaced spots start at the first row and advance by the floor or the ceiling of length / count, by at least one |
| `SampleSelection.SpotsFit` | src/oa_knowledge/backfill_mvp.py:120-125 | All of them lie inside the list |
| `SampleSelection.EvenlySpacedDistinct` | src/oa_knowledge/backfill_mvp.py:120-125 | An even selection repeats no row |
| `SampleDraw.DealtIsFair` | src/oa_knowledge/backfill_mvp.py:224-236 | Rounds over the priority buckets end fair: the special part is min(limit, all special rows) long, holds the first rows of each bucket, and bucket counts differ by at most one among buckets that still have rows |
| `SampleDraw.FairIsUnique` | src/oa_knowledge/backfill_mvp.py:224-236 | Fairness settles which rows are taken: two fair parts hold the same rows |
| `SampleDraw.BucketsSplit` | src/oa_knowledge/backfill_mvp.py:185-222 | Every row is in exactly one special bucket or ordinary |
| `SampleSelection.BucketIsFirst` | src/oa_knowledge/backfill_mvp.py:197-221 | A row is in the first bucket, in the order in which the rounds take them, whose condition it meets |
| `SampleSelector.DrawnIsExact` | src/oa_knowledge/backfill_mvp.py:238-250 | For 1 <= sample_size <= targets the selection has exactly that many rows, with distinct keys, from the targets |
| `SampleSelector.BeyondLimitMeansAllOrdinary` | src/oa_knowledge/backfill_mvp.py:238-248 | More special rows than the limit are selected only when every ordinary row is |
| `SampleSelector.DrawnIsSpacedOrFilled` | src/oa_knowledge/backfill_mvp.py:120-125 | When there are more ordinary rows than needed, as many are selected at places that begin with the first row, each the last within its even share, in steps of the floor or the ceiling of the mean; otherwise all are, and special rows fill up in bucket and key order |
| `SampleSelector.SortAscends` | src/oa_knowledge/backfill_mvp.py:251-251 | The result is in ascending order of the keys |
| `SampleSelector.Classify` | src/oa_knowledge/backfill_mvp.py:185-222 | The loop that fills the buckets |
| `SampleSelector.RoundRobin` | src/oa_knowledge/backfill_mvp.py:224-236 | The nested rounds give a fair special part |
| `SampleSelector.SelectRepresentativeItems` | src/oa_knowledge/backfill_mvp.py:128-251 | The two argument errors, and otherwise a representative sample: fair special rows, evenly spaced ordinary ones or all of them, in key order; the last error cannot occur |
| `AliasGroups.HeadsRepresent` | src/oa_knowledge/backfill_mvp.py:290-310 | Every record goes with exactly one group head |
| `AliasGroups.GroupFiles` | src/oa_knowledge/backfill_mvp.py:303-312 | The grouping loop gives one group for each head, holding exactly the records that share its content, in order |
| `AliasGroups.BestMeans` | src/oa_knowledge/backfill_mvp.py:313-317 | The preferred record is not truncated if any of the group is not, official if any as readable is, and the first with the longest name of those |
| `BuildTotals.Candidate` | src/oa_knowledge/backfill_mvp.py:313-318 | The representative is the first record of maximal preference, and the aliases are sorted by id |
| `BuildTotals.CanonicalizeAttachmentAliases` | src/oa_knowledge/backfill_mvp.py:290-319 | One candidate per group, in the order of first appearance |
| `BuildTotals.AliasesMeanSameContent` | src/oa_knowledge/backfill_mvp.py:303-312 | Two different records are aliases of one candidate if and only if they have the same non-empty hash |
| `BuildTotals.AliasesArePartition` | src/oa_knowledge/backfill_mvp.py:290-319 | Every record is an alias of exactly one candidate, and nothing else is |
| `BuildTotals.AliasesAddUp` | src/oa_knowledge/backfill_mvp.py:477-479 | The groups together have as many aliases as there are records |
| `BuildTotals.DuplicateAliasesAreReal` | src/oa_knowledge/backfill_mvp.py:478-479 | The duplicates counted for a package are the records beyond one per content, never a negative number |
| `BuildTotals.ConvertAll` | src/oa_knowledge/backfill_mvp.py:482-494 | Each attachment is counted as converted, skipped or failed |
| `BuildTotals.Build` | src/oa_knowledge/backfill_mvp.py:413-507 | A build ends with totals exactly when every sample is usable; the totals count records and different contents and how the conversions ended, and always reconcile; otherwise it stops at the first sample that is not usable, with its error |
| `ExactQuote.QuoteIsVerbatim` | tools/local_classification_audit.py:95-107 | What comes back stands in the text as it is, and differs from the quote in white space only |
| `ExactQuote.QuoteIsFoundIff` | tools/local_classification_audit.py:95-107 | For a quote of stripped length eight or more, something comes back if and only if the compacted quote occurs in the compacted text |
| `ExactQuote.SpanCompacts` | tools/local_classification_audit.py:101-106 | The span between two kept characters compacts to what lies between them |
| `ExactQuote.FirstQuoteIsFoundIff` | tools/local_classification_audit.py:335-336 | Over the documents of an item a quote is found exactly when a single document contains it up to white space |
| `ExactQuote.UnreviewedIsVerbatim` | tools/local_classification_audit.py:334-342 | A suggestion that escapes review shows a verbatim passage of one document; quote_verified holds exactly when there is one |
| `Calendar.BeforeIsOrdinal` | src/oa_knowledge/backfill.py:14-23 | Comparing dates is comparing day numbers, with real month lengths and leap years |
| `Calendar.PreviousDayOrdinal` | src/oa_knowledge/backfill.py:17-17 | The day before has the number before |
| `BackfillWindows.NextWindow` | src/oa_knowledge/backfill.py:14-23 | The next window is non-empty, ends at the cursor, stays in the range and in one calendar month; there is none exactly when the cursor has arrived |
| `BackfillWindows.NextWindowIsWhole` | src/oa_knowledge/backfill.py:14-23 | It takes in every day of the range in the month of the day before the cursor, and its granularity says whether it begins a month and has 28 days, or has at most seven |
| `BackfillWindows.ShrinkMeans` | src/oa_knowledge/backfill.py:26-35 | A shrink keeps end and month and strictly shortens the window, to at most sixteen days and then to seven |
| `BackfillWindows.MiddleFits` | src/oa_knowledge/backfill.py:30-32 | For a window inside one month the sixteenth always falls inside: the fallback is never used |
| `BackfillWindows.AtMostTwoShrinks` | src/oa_knowledge/backfill.py:26-35 | At most two shrinks succeed before the error |
| `BackfillWindows.FittedMeans` | src/oa_knowledge/cli.py:1894-1906 | The loop ends with a window of at most 500 items with the same end, or fails because the last seven days hold more |
| `BackfillWindows.FittedIsFirst` | src/oa_knowledge/cli.py:1894-1906 | A window is shrunk no more than needed: each one before the last holds more than 500 items |
| `BackfillCampaign.NextKeepsTiled` | src/oa_knowledge/cli.py:1877-1912 | One call keeps the windows adjacent and disjoint, and the cursor moves back when it plans one |
| `BackfillCampaign.NextMeans` | src/oa_knowledge/cli.py:1870-1912 | When a call plans, which window, and when it reports a bad range, an uncompleted plan or the end; a call that plans nothing leaves the plans |
| `BackfillCampaign.CampaignIsTiled` | src/oa_knowledge/cli.py:1877-1912 | Over any campaign on one range the planned windows tile it from its end |
| `BackfillCampaign.CoveredOnce` | src/oa_knowledge/cli.py:1885-1888 | Every day from the cursor to the end of the range lies in exactly one window, any other day in none |
| `BackfillCampaign.FinishedCampaignTilesRange` | src/oa_knowledge/cli.py:1885-1892 | When no window is left the windows cover exactly the range, each day once |
| `BackfillCampaign.CampaignFinishesIff` | src/oa_knowledge/cli.py:1877-1912 | Calls one after the other, each planned window completed before the next, come to a call that finds nothing left if and only if from no call on every one is blocked by too dense days or by a plan on record |
| `BackfillCampaign.CampaignFinishes` | src/oa_knowledge/cli.py:1877-1912 | If no seven days hold more than 500 items and no plan is on record already, every call plans one window until the call that finds nothing left; it comes after at most as many calls as the range has days, and the plans before it cover each day of the range once and no other day |
| `BackfillCampaign.PlansAreBounded` | src/oa_knowledge/cli.py:1885-1892 | Every planned window takes at least a day of the range |
| `BackfillCampaign.Backfill.BackfillNext` | src/oa_knowledge/cli.py:1877-1912 | The command in place plans the specified window or reports why not |
| `BackfillCampaign.Backfill.FitWindow` | src/oa_knowledge/cli.py:1894-1906 | The shrink loop |
| `DuplicatePlan.PlanIsSound` | tools/repair_attachment_duplicates.py:21-37 | Every planned fold joins an alias to a real attachment of the same item, container and bytes, and no record is folded twice |
| `DuplicatePlanner.PlanIsComplete` | tools/repair_attachment_duplicates.py:28-36 | A verified alias is folded into a record exactly when that is its one match, and reported as ambiguous exactly when it has several |
| `DuplicateChoice.FoldedIff` | tools/repair_attachment_duplicates.py:21-37 | A verified alias is folded into a record if and only if that one is the only real attachment of the item and container with its bytes and a name like its own, exact names first; it is reported if and only if there are two |
| `DuplicateChoice.OnlyAliasesAreFolded` | tools/repair_attachment_duplicates.py:21-37 | Only verified aliases are folded, into such a record |
| `DuplicatePlanner.Plan` | tools/repair_attachment_duplicates.py:21-37 | The planning loops give the specified repairs and unresolved records |
| `DuplicatePlanner.GroupRows` | tools/repair_attachment_duplicates.py:22-24 | The grouping loop |
| `DuplicateMerge.MergeKeepsUnique` | tools/repair_attachment_duplicates.py:143-151 | After a fold there is still at most one export per file and schema, and none is left with the extra record |
| `DuplicateMerge.MergeKeepsSuccess` | tools/repair_attachment_duplicates.py:143-151 | The kept file has a successful export for a schema if and only if it or the extra record had one; other files keep theirs |
| `DuplicateMerge.MergeWinner` | tools/repair_attachment_duplicates.py:143-151 | Which of two exports stays: the one of the kept file, unless only the other is successful; what goes is detached and superseded, what moves takes the path of the kept file |
| `DuplicateRepair.RowsAreConserved` | tools/repair_attachment_duplicates.py:140-151 | No job, review or export row is lost; each refers to where its file was sent, or is marked superseded |
| `DuplicateRepair.FilesAreKept` | tools/repair_attachment_duplicates.py:152-160 | Exactly the extra records are gone; the rest is unchanged but for name and role, whose priority is the best of those merged |
| `DuplicateRepair.SuccessIsKept` | tools/repair_attachment_duplicates.py:132-160 | After any number of folds a file has a successful export exactly when one of the records sent to it had one |
| `DuplicateRepair.RepairLosesNothing` | tools/repair_attachment_duplicates.py:128-163 | A committed repair: rows conserved, references intact, constraints kept, kept files present, success preserved both ways |
| `DuplicateRepair.LastCheckHolds` | tools/repair_attachment_duplicates.py:161-162 | If all references held before, the final foreign-key check cannot be what stops a repair |
| `DuplicateRepair.PlanIsApart` | tools/repair_attachment_duplicates.py:21-37 | No planned repair keeps what another one deletes |
| `DuplicateOutcome.CommitsOnlyWhenIdle` | tools/repair_attachment_duplicates.py:128-141 | A repair commits only if no job is active and no running parse job reads a file that it keeps or folds |
| `DuplicateOutcome.FoldsOnlyWhenIdle` | tools/repair_attachment_duplicates.py:134-142 | An entry is refused while one of its files is parsed, and exactly when rows that cannot be redirected refer to the extra record |
| `DuplicateOutcome.FoldedName` | tools/repair_attachment_duplicates.py:152-159 | A fold gives the kept record its cleaned-up name, unless that is truncated and the other one is not, and the stronger role |
| `DuplicateOutcome.RolesInOrder` | tools/repair_attachment_duplicates.py:152-153 | The order of the roles; all others are equal and last |
| `DuplicateOutcome.NamesAreBest` | tools/repair_attachment_duplicates.py:152-159 | After a repair the name of a file that others were folded into is truncated only if all of theirs and its own were, if cleaning up twice does not matter for that; other files keep their names |
| `DuplicateOutcome.PathsAreSent` | tools/repair_attachment_duplicates.py:143-151 | After a repair each export has the path of the file that its own was folded into, or its own path |
| `RepairDatabase.Database.MergeExports` | tools/repair_attachment_duplicates.py:143-151 | The loop over the exports of the extra record, on a table that changes under it, gives the specified merge |
| `RepairDatabase.Database.Fold` | tools/repair_attachment_duplicates.py:133-160 | One entry in place |
| `RepairDatabase.Database.Apply` | tools/repair_attachment_duplicates.py:128-166 | The transaction leaves what folding all entries gives; on any error the database is unchanged |
| `Relocation.ResumeCompletesIff` | tools/repair_attachment_duplicates.py:46-70 | After any history of interrupted runs, running once more completes if and only if the records to be moved have different paths |
| `Relocation.BytesAreKept` | tools/repair_attachment_duplicates.py:46-70 | At every point the bytes of each record to be moved are in exactly one of original place and recovery copy, and no path of a live row is touched |
| `Relocation.SharedSourceNeverCompletes` | tools/repair_attachment_duplicates.py:56-64 | Two folded records on one path, which no live row uses: no resumption completes |
| `Relocation.Journal.Relocate` | tools/repair_attachment_duplicates.py:46-70 | The loop over the journal, dying at any entry |
| `PendingSync.SyncCounts` | src/oa_knowledge/pending_sync.py:55-143 | Tallies add up to the list; active rows after = before + created + reactivated - closed; after an authoritative list the active rows are exactly the listed ones |
| `PendingTallies.TalliesMean` | src/oa_knowledge/pending_sync.py:57-126 | The tallies are the numbers of listed items that are new, changed, the same and back, by what the row held when the list came to the item |
| `PendingTallies.ClosedMeans` | src/oa_knowledge/pending_sync.py:127-143 | Closed are the rows that were active before and are not on an authoritative list |
| `PendingSync.ListedIsShown` | src/oa_knowledge/pending_sync.py:93-110 | A listed row is active and shows what was listed last, also after its columns were erased |
| `PendingSync.ErasedOnlyWhenSent` | src/oa_knowledge/pending_cleanup.py:59-90 | Nothing is erased without a confirmed delivery or a second time, and a cleanup touches no hash and no task |
| `PendingSync.CleanedStays` | src/oa_knowledge/pending_cleanup.py:74-76 | A cleaned row stays marked as cleaned over every later run: rediscovered it is shown again, but never erased again |
| `PendingErasure.ErasesOverRunsIff` | src/oa_knowledge/pending_cleanup.py:59-90 | After any run, a delivered and permitted cleanup without a fault erases what is shown of a row if and only if the run has not cleaned it before, and has not failed to unless the cleanup is forced or a retry |
| `PendingErasure.ColumnIsHistory` | src/oa_knowledge/pending_cleanup.py:141-231 | The cleanup column says exactly whether the run has cleaned the row, or tried to and failed |
| `PendingErasure.ErasedMeansDelivered` | src/oa_knowledge/pending_cleanup.py:74-90 | A cleanup goes ahead only after a confirmed delivery that the policy lets be erased, and only on a row that has not been cleaned |
| `PendingErasure.ErasesIff` | src/oa_knowledge/pending_cleanup.py:59-90 | The same for a single cleanup, from the column of the row |
| `PendingHistory.RunAgrees` | src/oa_knowledge/pending_sync.py:57-126 | After any run of synchronisations, cleanups and deferrals the tasks are exactly those started by the sightings, in order, and each row remembers what was seen last |
| `PendingHistory.ExactlyOnce` | src/oa_knowledge/pending_sync.py:57-126 | Without disabled synchronisations there is exactly one task per pair of item and content ever seen, and its notify flag is fixed by the mode that saw the pair first |
| `PendingHistory.TaskIff` | src/oa_knowledge/pending_sync.py:82-126 | In general a pair has a task if and only if one of its sightings was not disabled and differed from what was seen last under the key |
| `PendingHistory.DisabledEatsSighting` | src/oa_knowledge/pending_sync.py:107-113 | A disabled synchronisation records the content, so the next normal one starts nothing |
| `PendingStore.Store.SyncPendingDiscovery` | src/oa_knowledge/pending_sync.py:37-143 | The loop over the list and the closing of missing rows give the specified ledger and tallies |
| `PendingStore.Store.Discover` | src/oa_knowledge/pending_sync.py:57-126 | One item in place |
| `PendingStore.CloseEach` | src/oa_knowledge/pending_sync.py:127-135 | The loop that closes the rows which are not listed |
| `PendingStore.Store.PerformCleanup` | src/oa_knowledge/pending_cleanup.py:141-231 | Erases only after a confirmed, permitted delivery; a refusal changes nothing, a fault keeps what is shown, and no other row, hash or task is touched |
| `ParseArtifacts.AlwaysSound` | src/oa_knowledge/pipeline.py:377-448 | Over any run a valid artifact is the active one of its content object and has a quality of at least one half |
| `ParseArtifacts.AtMostOneValid` | src/oa_knowledge/pipeline.py:434-447 | A content object has at most one valid artifact |
| `ParseArtifacts.ActiveStaysValidIff` | src/oa_knowledge/pipeline.py:395-447 | The active artifact stays valid unless the very same product is parsed again below one half: then it is rejected and stays active |
| `ParseArtifacts.TakeOverMeans` | src/oa_knowledge/pipeline.py:434-440 | A product takes over only if it is good enough and no worse, or comes from the office engine |
| `ParseArtifacts.ComesIntoUseIff` | src/oa_knowledge/pipeline.py:395-447 | A finished product comes into use if and only if it is good enough, and no worse than the one in use or from the better engine; it is valid then and the other superseded, otherwise rejected; nothing else changes |
| `ParseArtifacts.Pipeline.FinishRun` | src/oa_knowledge/pipeline.py:377-448 | The last transaction of a run in place |
| `ParseArtifacts.Pipeline.RequeueLost` | src/oa_knowledge/pipeline.py:193-204 | Queueing a completed job again when its product is gone gives up the product and takes it out of use; other products stay as they are |
| `Witnesses.DoubledSeparatorIsNotMoved` | src/oa_knowledge/archive_paths.py:110-116 | A stored path with a doubled separator lies in the moved directory and is not rewritten |
| `Witnesses.FailedMigrationLeavesParents` | src/oa_knowledge/archive_reconciliation.py:222-252 | A store in which a migration that fails in its commit leaves the parent directories it made |
| `Witnesses.SharedDirectoryDangles` | src/oa_knowledge/archive_reconciliation.py:228-246 | Two items in one directory: migrating the first leaves the path of the second pointing at nothing |
| `Witnesses.EmptySourceFails` | src/oa_knowledge/done_collection.py:252-307 | An undisturbed batch over a source without pages fails |
| `Witnesses.LateRequeueIsMissed` | src/oa_knowledge/online_audit.py:764-802 | A ledger whose completing transaction completes the run with an open item |
| `Witnesses.UnreachableWithoutJob` | src/oa_knowledge/online_audit.py:766-772 | A run without a job row, with one matched item and one that cannot be reached, that no batch completes |
| `Witnesses.RejectedStaysActive` | src/oa_knowledge/pipeline.py:395-447 | A product in use that is parsed again, rejected, and stays the active one |
| `Witnesses.CleanedIsShownAgain` | src/oa_knowledge/pending_cleanup.py:74-76 | A cleaned row that is listed again shows its content, and no cleanup removes it |

## Left out

- Browser, OA, HTTP, subprocesses, the web console and message delivery: plumbing around the ledger.
- `reconcile_item` and the other text-rewriting moves: they do not undo the texts they rewrite, so no exact restore could be stated.
- Title, issuer and document-number patterns, parsing, OCR, rendering, prompts: regular expressions, data tables and libraries; their verdicts are parameters.
- Status views, cleanup planners, configuration and review listings: only easy members.
- Archive paths with `..` components or through links to directories: the tree has plain files and directories only.
- The digest of a directory tree: the fingerprint is the listing with contents itself.
- Directory and file names (`safe_filename`) of a new archive path: the target directory of a Done item is given.
- A failing rename or commit that takes effect and reports an error: an operation either happens or raises.
- An error in the middle of making the target's parents in an archive migration: all of them are made, or an entry on the way is no directory and none is. Rows and old entries are not touched before that point.
- Time, time zones and daylight saving: lease expiry is an event of the protocol, backfill dates are calendar dates.
- The resource lease of the browser: a worker without it does nothing in the model.
- CollectionProtocol.CollectionLedger.StartCollection: does not model the refusals for another OA source, a download without a completed inventory or a review without a plan, nor what a new job's keys are; they only refuse more.
- CollectionProtocol.CollectionLedger.ControlCollection: does not model the refusal for a changed OA source nor the reset of the manifest rows of a download; they do not touch job rows.
- InventoryWorker.InventoryLedger.UpsertManifestPage: does not model the initiation date written to an archived item, nor that the work item and the initiation date are kept when the source has none; the other fields are one value.
- Recovery by lease expiry of a worker that is still alive: a job is recovered from dead workers only.
- `run_review` and `run_login` beyond their parameter and status writes: page previews and login dialogs.
- The stale row a long inspection may read again at its end: each transaction of an audit reads what is committed.
- Events, timestamps, error texts, elapsed seconds and progress of an audit; the supplement download it queues: records that no modelled decision reads.
- The `inventory_only` audit: it compares counts, its verdict arrives as the outcome of an inspection.
- Parse jobs that the convergence planner requeues with a task: they are not read by its decisions.
- Priorities, payloads, leases and retry times of pipeline tasks: likewise.
- Names that collide after the display clean-up in the duplicate repair, and what `same_attachment_filename` compares: given as functions.
- The verification of bytes before a repair and the database snapshot: reads only.
- A crash inside one file move of the relocation: a move is atomic.
- Two texts for one path: relocation compares paths as texts.
- Files, snapshots, summaries and evidence that a pending cleanup deletes: the model keeps what deduplication reads.
- `apply_pending_identifiers` and `record_pending_snapshot`: single-row writes.
- Campaigns of backfill calls with different ranges: the tiling is stated for one range.
- Shared parse products and parse failures: they change the status of a job and no artifact.
- Knowledge documents that point at the active artifact: a copy of that reference.
