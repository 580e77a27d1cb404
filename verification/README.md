# Awa, verified

A Dafny model of five parts of Awa, a Postgres-native job queue, and proofs about them over
every run: owner-scoped cron reconciliation, cron firing by compare-and-swap, durable batch
operations, the canonical callback lifecycle with two listing algorithms, and the COPY encoder.

How the model is built:

- A transaction is one atomic step, because the source serialises writers by a lock or a row
  lock. A run is a sequence of steps; a theorem about runs quantifies over all of them.
- Code that updates rows or buffers is a class (`CronStore.Store`, `BatchStore.Store`,
  `CallbackStore.Store`, `CopyWriter.Buffer`). Each method is proved against a function of the
  old state. `BatchStore` and `CallbackStore` also carry a ghost trace: the store's past is a
  run of the machine, so the theorems about runs are about that code.
- Clocks, the job table as other sessions leave it, evaluator answers, fresh ids, transaction
  failures and crashes are parameters or steps. Times are integers in microseconds.
- The manifest digest is a constructor over the canonical manifest, so it has no collisions.
- The database triggers that fence schedule rows (`cron_schedule_fence`) and drop agreement
  windows when an unknown runtime appears (`cron_unknown_runtime`) are part of the model.

Layout, in dependency order:

| file | holds |
|---|---|
| `Prelude`, `KeySort`, `Ordering`, `Jobs` | options, extrema, sorting by key, ids in order, job states |
| `CanonicalJson`, `CronManifest` | canonical JSON and canonical manifests |
| `CronTables`, `CronEvaluation` | the cron tables, the evaluation, every transaction as a step |
| `CronCertificate`, `CronRuns` | certificate invariant, shortcut, runs and what the evidence tables hold after one |
| `CronConvergence`, `CronRetirement` | convergence, what each operation promises, retirement safety |
| `CronStore` | the reconciliation and schedule operations in place |
| `DueFire`, `CronFiring`, `CronFiringExact` | due-fire searches, leaders racing on `last_enqueued_at`, and exactly when their fires stay in order |
| `BatchJobs`, `BatchRunner`, `BatchCancel`, `BatchScan`, `BatchProgress`, `BatchStore` | batch operations |
| `Callbacks`, `CallbackHistory`, `CallbackDelivery`, `CallbackStore` | the callback lifecycle, where a row's columns come from, who receives which payload, the operations in place |
| `JobListing`, `RuntimeConfig` | the paged listing, the mismatch check |
| `CopyWriter`, `CopyReader`, `CopyRoundTrip` | the encoder, the server's reading of it, the round trip |

Results that needed a condition the source does not state:

- A restore sets `last_enqueued_at` to the database clock. Whatever follows, the schedule's fires
  stay in order exactly when its last fire was not ahead of that clock
  (`CronFiringExact.RestoreSafeIff`); a leader whose clock is ahead makes one fire commit twice
  (`CronFiringExact.LeaderAheadFiresTwice`). That nothing fires again at or before a restore needs
  no condition (`CronFiring.NoReplayAfterRestore`).
- Deleting an unowned schedule and creating it again forgets its last fire. Whatever follows, the
  new row's fires are later than an old one exactly when the new row's first search cannot reach
  that fire and no leader still holds an unfired cursor on the name at or before it
  (`CronFiringExact.RecreateSafeIff`). The order of fires is therefore stated per generation.
- `record_item_outcome_tx` increments the counters whether or not the item moved, so counters
  equal item counts exactly when the item is still pending (`BatchRunner.RecordConservesIff`);
  the runner lock is what guarantees that.
- `check_callback_state` carries no lease and does not look at the token once a result is there.
  Over every run, each payload goes to the token it was resumed for exactly when every poll that
  receives one asks for the token last resumed on the job (`CallbackDelivery.DeliveryIff`).
  Handlers that act only for the running attempt and wait on one token at a time meet this; a
  handler of an abandoned attempt, or one that registers twice, takes another token's payload
  (`CallbackDelivery.StaleHandlerTakesPayload`, `CallbackDelivery.SecondRegistrationTakesPayload`).
- The array encoder quotes a tag for a space but not for other white space. COPY stages what the
  `unnest` insert stages exactly when no otherwise unquoted tag begins or ends with a tab, line
  feed, vertical tab, form feed or carriage return (`CopyRoundTrip.CopyMatchesInsertIff`). A lone
  tag of nothing but such characters disappears; beside another it makes the array malformed.

## Model

| member | source | states |
|---|---|---|
| `CanonicalJson.CanonicalIffSame` | awa-model/src/admin.rs:1628-1646 | two well-formed values have the same canonical form if and only if they differ only in object key order, at every depth |
| `CanonicalJson.CanonicalIdempotent` | awa-model/src/admin.rs:1628-1646 | canonicalising twice is canonicalising once |
| `CanonicalJson.CanonicalWellFormed` | awa-model/src/admin.rs:1628-1646 | the canonical form keeps object keys distinct |
| `CronManifest.PrepareManifest` | awa-model/src/cron_reconciliation.rs:85-105 | succeeds exactly on lists of valid, distinct names, with the canonical value and its digest; the value declares the same jobs as the list; a refusal names an offending job |
| `CronManifest.AcceptableUnderPermutation` | awa-model/src/cron_reconciliation.rs:85-105 | acceptance does not depend on the order of the jobs |
| `CronManifest.CanonicalValueHolds` | awa-model/src/cron_reconciliation.rs:85-105 | the value is sorted by name, free of duplicates, and holds exactly the canonical jobs |
| `CronManifest.CanonicalValueSame` | awa-model/src/cron_reconciliation.rs:85-105 | every job of the list stands in the canonical value as the same job, and no other does |
| `CronManifest.DigestsAgreeIffSameJobs` | awa-model/src/cron_reconciliation.rs:85-105 | two acceptable lists have equal digests if and only if they hold the same jobs up to order and key order |
| `CronEvaluation.EvidenceShape` | awa-model/src/cron_reconciliation.rs:262-294 | when nothing blocks there is live evidence, one hash, and a stored manifest for it |
| `CronEvaluation.EvidenceRows` | awa-model/src/cron_reconciliation.rs:262-264 | from the rows: exactly the recently seen runtimes that do not say they speak the protocol block, NULL included; exactly the instances whose declaration and runtime are recent and which are not shutting down count, with the revision, digest and grace they declared, until they stop being recent |
| `CronEvaluation.EvidenceMeans` | awa-model/src/cron_reconciliation.rs:262-294 | each evidence blocker is raised exactly in its case; none is, with an agreed digest, exactly when nobody recent is foreign and all who speak for the owner, at least one, declared that digest |
| `CronCertificate.CertifiedHasNoChanges` | awa-model/src/cron_reconciliation.rs:305-315 | under a certificate the full comparison finds no addition, update or conflict |
| `CronCertificate.JoinIsDescribe` | awa-model/src/cron_reconciliation.rs:305-315 | the conflict-only query finds exactly the conflicts of the full comparison |
| `CronCertificate.HeartbeatSeesConflicts` | awa-model/src/cron_reconciliation.rs:293-319 | in every state satisfying the invariant the heartbeat shortcut reports the conflicts and blockers of the full path |
| `CronCertificate.SyncCertifies` | awa-model/src/cron_reconciliation.rs:171-206 | after a sync without conflicts every job of the manifest has an active row of that owner with that definition |
| `CronCertificate.SyncKeepsOthers` | awa-model/src/cron_reconciliation.rs:171-206 | a sync leaves what certifies any other owner untouched |
| `CronCertificate.EvaluateInv` | awa-model/src/cron_reconciliation.rs:252-368 | every evaluation keeps the certificate invariant |
| `CronCertificate.DeclaredInv` | awa-model/src/cron_reconciliation.rs:131-169 | a publication's own writes keep it |
| `CronCertificate.OperateInv` | awa-model/src/cron_reconciliation.rs:516-611 | adopt, retire and restore keep it by clearing both sides of a transfer |
| `CronCertificate.PlainInv` | awa-model/migrations/v045_cron_reconciliation.sql:77-111 | no statement of a client outside the protocol breaks it, because of the row trigger |
| `CronCertificate.AdditiveUpsertInv` | awa-model/src/cron.rs:295-342 | additive registration keeps it |
| `CronCertificate.FiringWritesInv` | awa-model/src/cron.rs:398-495 | pause, resume and enqueue keep it |
| `CronCertificate.StepInv` | awa-model/src/cron_reconciliation.rs:131-611 | every transaction keeps it: a recorded `synced_hash` means every job of that manifest has an active row of that owner with exactly that definition |
| `CronCertificate.ProtocolPassesFence` | awa-model/migrations/v045_cron_reconciliation.sql:77-111 | the trigger never drops or aborts a row write of a sync or a retirement |
| `CronCertificate.AdditiveUpsertMeans` | awa-model/src/cron.rs:295-342 | registration is accepted exactly when no owner manages the row; then the definition stands unless the row is retired; nothing else of that row changes, and no other row |
| `CronConvergence.FastPathIsFull` | awa-model/src/cron_reconciliation.rs:293-367 | with every shortcut on, an evaluation leaves the tables, blockers, conflicts, window and grace of one that always compares and always syncs |
| `CronConvergence.CertifiedSyncIsIdle` | awa-model/src/cron_reconciliation.rs:338-346 | the sync a certificate lets the code skip would change nothing |
| `CronConvergence.DryRunPredictsApply` | awa-model/src/cron_reconciliation.rs:457-479 | `plan` changes nothing and equals the plan of `reconcile` at that instant, which applies exactly when no blocker is left and otherwise retires nothing |
| `CronConvergence.Convergence` | awa-model/src/cron_reconciliation.rs:337-367 | right after an applied reconciliation a plan is empty, the owner's active rows are exactly the agreed manifest, and reconciling again changes nothing |
| `CronConvergence.PlanIsDifference` | awa-model/src/cron_reconciliation.rs:382-421 | the listed additions, updates and retirements are exactly what applying the plan does, row by row; ownership never changes |
| `CronConvergence.ConflictsMean` | awa-model/src/cron_reconciliation.rs:370-421 | each conflict names its reason: a row of another owner, or the owner's own retired row |
| `CronConvergence.PreviewOfPublished` | awa-model/src/cron_reconciliation.rs:425-455 | a preview equals the plan exactly for the manifest the fleet agrees on; any other is reported unpublished |
| `CronConvergence.PreviewPredicts` | awa-model/src/cron_reconciliation.rs:425-455 | a preview lists the changes the plan will list once the fleet agrees on that manifest |
| `CronConvergence.ReconcileMeans` | awa-model/src/cron_reconciliation.rs:460-479 | reconciling keeps the invariant, returns the dry-run plan, applies exactly without blockers, and then the plan is empty |
| `CronConvergence.EvaluateRows` | awa-model/src/cron_reconciliation.rs:252-368 | an evaluation never changes a row's owner, pause, last fire or age, and only redefines or retires active rows of its owner; a row it creates is the owner's, active, unpaused and never fired |
| `CronConvergence.DeclaredRows` | awa-model/src/cron_reconciliation.rs:146-166 | the first publication of a manifest inserts exactly the missing rows, as the owner's with their definitions, and touches none that is there |
| `CronConvergence.PublishMeans` | awa-model/src/cron_reconciliation.rs:131-169 | a publication keeps the invariant; accepted, the declaration has its owner, revision, digest, grace and time, the manifest is stored, no other declaration, runtime or manifest changes, and rows change as by a heartbeat; a refused one changes nothing |
| `CronConvergence.OperateMeans` | awa-model/src/cron_reconciliation.rs:516-611 | an operator action keeps the invariant; permitted, a row is retired afterwards exactly if it was or the action names it or its owner (and dually for restores), an adoption changes one owner, every other row is unchanged, and exactly the owners who gain or lose lose certificate and window; refused, nothing changes |
| `CronConvergence.AdoptOnce` | awa-model/src/cron_reconciliation.rs:556-569 | of two operators who adopt a schedule from the same expected owner only the first succeeds |
| `CronRuns.After` | awa-model/src/cron_reconciliation.rs:1-3 | every state reached by a run satisfies the certificate invariant |
| `CronRuns.EvidenceIsLast` | awa-model/src/cron_reconciliation.rs:156-157 | after every run a runtime row is the last snapshot of its instance, and a declaration holds owner, revision, digest, grace and time of the instance's last accepted publication |
| `CronRuns.UnblockedIff` | awa-model/src/cron_reconciliation.rs:262-294 | the evidence blocks on nothing and agrees on a digest exactly if no recent snapshot is foreign and everyone whose publication and snapshot are recent published that digest |
| `CronRuns.RunPassesChecks` | awa-model/migrations/v045_cron_reconciliation.sql:21-42 | no owner id or grace the protocol writes violates the checks of its tables |
| `CronRetirement.EvaluationRecords` | awa-model/src/cron_reconciliation.rs:320-355 | exactly what a persisted evaluation leaves in `synced_hash`, `agreed_hash`, `agreed_since` and `evidence_until`, quiet or blocked |
| `CronRetirement.UnobservedKeepsWindow` | awa-model/src/cron_reconciliation.rs:252-368 | a transaction that is no observation of an owner leaves its window alone |
| `CronRetirement.ResetClearsWindow` | awa-model/migrations/v045_cron_reconciliation.sql:64-75 | an operator action clears the whole agreement; a runtime outside the protocol clears the window and keeps certificate and hash |
| `CronRetirement.RowShowsLast` | awa-model/src/cron_reconciliation.rs:320-355 | the stored window is that of the last observation |
| `CronRetirement.EarliestIs` | awa-model/src/cron_reconciliation.rs:346-347 | the recorded end of evidence is that of its first piece to expire |
| `CronRetirement.WindowBacked` | awa-model/src/cron_reconciliation.rs:320-355 | behind every window the tables hold lies an unbroken tail of evaluations that all saw its hash and no blocker but grace, each before the previous evidence expired, and no longer tail is unbroken |
| `CronRetirement.WindowCovered` | awa-model/src/cron_reconciliation.rs:320-355 | at every instant of the window some evaluation's evidence was live |
| `CronRetirement.RetirementSafety` | awa-model/src/cron_reconciliation.rs:252-368 | whenever a reconciliation retires a schedule, no recent runtime was foreign, all who spoke for the owner had published one manifest without that name, the evaluations since the recorded `agreed_since` saw that hash and no blocker but grace, each before any previous evidence expired, the grace each of them published has elapsed since then, and the tombstone names time, owner and their revisions |
| `CronRetirement.AppliedIffGraceOver` | awa-model/src/cron_reconciliation.rs:320-367 | a reconciliation is applied if and only if no recent runtime is foreign, all who speak for the owner published one manifest, no row stands against it, and some unbroken tail of the observations has served every published grace |
| `CronRetirement.ReadyIff` | awa-model/src/cron_reconciliation.rs:262-319 | a reconciliation blocks on nothing but grace exactly in such a state |
| `CronRetirement.GraceRemainingIs` | awa-model/src/cron_reconciliation.rs:334-336 | the reported remaining grace is exactly how long a caller must still wait |
| `CronRetirement.ReconcileRetires` | awa-model/src/cron_reconciliation.rs:356-366 | a retired row was the owner's and outside the manifest; it gets the time, the owner and the live revisions, and keeps everything else |
| `CronRetirement.RetirementDurable` | awa-model/src/cron_reconciliation.rs:516-611 | a retired row survives every transaction but an operator's unchanged |
| `CronStore.Store.DescribeChanges` | awa-model/src/cron_reconciliation.rs:382-421 | the pass over the manifest and the rows computes the four sets of the description |
| `CronStore.Store.SyncDefinitions` | awa-model/src/cron_reconciliation.rs:171-206 | without conflicts, every job of the manifest then has an active row of the owner with its definition |
| `CronStore.Store.EvaluateLocked` | awa-model/src/cron_reconciliation.rs:252-368 | plan and tables are those of the evaluation; not persisting changes nothing |
| `CronStore.Store.Publish` | awa-model/src/cron_reconciliation.rs:131-169 | accepted exactly with a valid configuration and a known runtime; then the declaration holds owner, revision, digest, grace and time of the call and the missing rows are there; the certificate invariant is kept; a refusal changes nothing |
| `CronStore.Store.GatherEvidence` | awa-model/src/cron_reconciliation.rs:262-294 | each blocker from the rows: foreign recent runtimes, NULL protocol included, and who speaks for the owner; the listed declarations quote exactly those who do |
| `CronStore.Store.CompareRows` | awa-model/src/cron_reconciliation.rs:293-319 | the changes each kind of evaluation looks at, with its shortcut |
| `CronStore.Store.Agree` | awa-model/src/cron_reconciliation.rs:320-367 | window, grace, sync, and retirement when applied |
| `CronStore.Store.PlanOnly` | awa-model/src/cron_reconciliation.rs:457-459 | the dry-run plan, and unchanged tables |
| `CronStore.Store.Reconcile` | awa-model/src/cron_reconciliation.rs:460-479 | the dry-run plan, applied exactly when unblocked; the certificate invariant is kept, and after an applied one the plan is empty |
| `CronStore.Store.CheckAction` | awa-model/src/cron_reconciliation.rs:516-569 | succeeds exactly on permitted actions; each error exactly in its case; the names are those the action picks up, described from the row's owner and retirement |
| `CronStore.Store.Operate` | awa-model/src/cron_reconciliation.rs:516-611 | succeeds exactly on permitted actions, returns exactly the rows picked up and keeps the certificate invariant; each row then is as the action promises, every other row unchanged, and exactly the owners who gain or lose a row lose certificate and window; refusals and dry runs change nothing |
| `CronStore.Store.UpsertCronJob` | awa-model/src/cron.rs:295-342 | accepted exactly when no owner manages the row; writes the definition of that one row or a new one, and nothing else |
| `CronStore.Store.PauseCronJob` | awa-model/src/cron.rs:398-418 | updates exactly rows that are not retired, and of them only the pause |
| `CronStore.Store.ResumeCronJob` | awa-model/src/cron.rs:425-440 | updates exactly rows that are not retired, and of them only the pause |
| `CronStore.Store.EnqueueFire` | awa-model/src/cron.rs:451-495 | the winner found the value it expected and left its own fire; every later enqueue that expects the old value loses; a lost race changes nothing |
| `CronStore.Store.RecordRuntime` | awa-model/src/admin.rs:2005-2094 | the runtime row is the snapshot, no other changes, the invariant is kept; a runtime of another protocol closes every owner's window |
| `CronStore.Store.RemoveRuntimes` | awa-model/src/admin.rs:2096-2112 | exactly the removed runtimes and their declarations are gone; the invariant is kept |
| `DueFire.LatestFireTime` | awa-model/src/cron.rs:95-143 | terminates over any unbounded increasing fire sequence and returns the greatest fire in (after, now], or none exactly if there is none |
| `DueFire.LatestIsConsumed` | awa-model/src/cron.rs:95-143 | evaluating again from the result at the same `now` returns none |
| `DueFire.LatestUnique` | awa-model/src/cron.rs:95-143 | the greatest due fire is determined by the sequence |
| `DueFire.LatestDueFire` | awa-worker/src/maintenance.rs:3406-3460 | the exponentially growing backward search terminates and finds the same greatest due fire |
| `DueFire.CatchUpFires` | awa-worker/src/maintenance.rs:3384-3403 | all missed fires in order, at most `limit` |
| `DueFire.ComputeFireTimes` | awa-worker/src/maintenance.rs:3337-3404 | the latest due fire, or under catch-up every missed one; all due, all later than the last, and a first fire is one, not before the search start |
| `CronFiring.EnqueueIsSwap` | awa-model/src/cron.rs:451-495 | a successful enqueue found the expected value on an active row and changed only that cell |
| `CronFiring.ProtocolKeepsLast` | awa-model/src/cron_reconciliation.rs:585-587 | no protocol transaction moves `last_enqueued_at`, except that a restore sets it to the current time |
| `CronFiring.WorldStepSafe` | awa-model/src/cron.rs:451-495 | every step of every leader and every other cron transaction, whatever the leaders' clocks, keeps the invariant behind the next row |
| `CronFiring.NoReplayAfterRestore` | awa-model/src/cron_reconciliation.rs:585-587 | over every interleaving and any leader clocks, every fire committed after a restore is later than it |
| `CronFiring.WorldStepOrder` | awa-model/src/cron.rs:451-495 | every step that restores no row ahead of the clock keeps the log in order |
| `CronFiring.NoDoubleFire` | awa-model/src/cron.rs:451-495 | over every interleaving and any leader clocks, one schedule's enqueues commit at strictly increasing fire times, if no restore meets a row that fired ahead of the database clock |
| `CronFiring.NotAheadInOrder` | awa-model/src/cron.rs:451-495 | in particular if no leader's clock is ever ahead |
| `CronFiring.FiresOnlyActive` | awa-model/src/cron.rs:451-495 | a step logs at most one fire, and only on a row neither paused nor retired |
| `CronFiringExact.RestoreSafeIff` | awa-model/src/cron_reconciliation.rs:585-587 | after a restore every continuation keeps the log in order if and only if the row's last fire is not ahead of the clock |
| `CronFiringExact.LateRestoreRepeats` | awa-model/src/cron_reconciliation.rs:585-587 | after any late restore some continuation commits the last fire again |
| `CronFiringExact.RecreateSafeIff` | awa-model/src/cron.rs:379-388 | when a schedule is created again, every continuation keeps the new row's fires later than a logged old one if and only if that lies before the new search start and no leader holds an unfired cursor at or before it |
| `CronFiringExact.ReachedCommits` | awa-model/src/cron.rs:95-143 | a first search that reaches an old fire commits it |
| `CronFiringExact.StaleCommits` | awa-model/src/cron.rs:451-495 | a cursor read from the deleted row commits its fire on the new one |
| `CronFiringExact.RecreatedFiresTwice` | awa-model/src/cron.rs:379-388 | a run in which a deleted and registered schedule commits one fire twice |
| `CronFiringExact.LeaderAheadFiresTwice` | awa-model/src/cron_reconciliation.rs:585-587 | a run in which a leader one second ahead of the database commits one whole-second fire twice |
| `BatchJobs.MatchesIff` | awa-model/src/batch_operations.rs:1131-1140 | what matches is what has not started and meets every condition the filter names |
| `BatchJobs.AllowAllNeeded` | awa-model/src/batch_operations.rs:270-276 | without `allow_all` an accepted operation leaves out some open job |
| `BatchJobs.AcceptedCanMatch` | awa-model/src/batch_operations.rs:266-276 | an accepted filter matches some open job, unless it lists no id or an empty span of dates |
| `BatchJobs.MutateOnce` | awa-model/src/batch_operations.rs:898-964 | a mutation reports a change exactly when the row differs afterwards, and a second one would not |
| `BatchJobs.MutateMeans` | awa-model/src/batch_operations.rs:898-964 | a mutation writes only priority, queue and the two stamps: what was asked for, each kept where nothing was, a stamp once and to the value before |
| `BatchJobs.MutateKeepsRange` | awa-model/src/batch_operations.rs:144-170 | accepted operations keep priorities from 1 to 4 and queues named |
| `BatchJobs.OriginKept` | awa-model/src/batch_operations.rs:898-964 | after any number of mutations the stamps still give the priority and queue before the first |
| `BatchJobs.PageIs` | awa-model/src/batch_operations.rs:1119-1157 | a page holds its window's ids in order, all of them up to its last |
| `BatchRunner.LoadPageInv` | awa-model/src/batch_operations.rs:614-626 | each page moves the cursor strictly forward and leaves no steady job behind |
| `BatchRunner.RecordConservesIff` | awa-model/src/batch_operations.rs:819-866 | recording an outcome keeps counters equal to item counts if and only if the item is pending |
| `BatchRunner.SkipInv` | awa-model/src/batch_operations.rs:743-767 | skipping keeps the counts and leaves nothing pending |
| `BatchRunner.StepInv` | awa-model/src/batch_operations.rs:385-489 | every transaction, cancellation, outside change and crash keeps the operation and runner invariant |
| `BatchRunner.ExactlyOnce` | awa-model/src/batch_operations.rs:385-489 | after any run each job's mutation committed exactly once if its item is processed and never otherwise; counters equal item counts; a finished operation has counted every item |
| `BatchRunner.OnlyApplyMutates` | awa-model/src/batch_operations.rs:795-817 | nothing but an item's own transaction changes a job row or the mutation history |
| `BatchRunner.ApplyMutates` | awa-model/src/batch_operations.rs:795-817 | that transaction changes the row by the operation's mutation exactly when it enters the history |
| `BatchRunner.TerminalIsFinal` | awa-model/src/batch_operations.rs:568-596 | a completed or cancelled operation never changes again |
| `BatchCancel.SubmittedAs` | awa-model/src/batch_operations.rs:266-294 | after every run each operation has the spec, filter and time of a submission that passed every check |
| `BatchCancel.SubmitMeans` | awa-model/src/batch_operations.rs:266-294 | a submission enters exactly if acceptable, pending and untouched, and changes no other operation |
| `BatchCancel.DisturbedMeans` | awa-model/src/batch_operations.rs:385-489 | an operation counts as disturbed exactly if a step of the run cancelled it, cut a run of it short or lost one of its item transactions |
| `BatchCancel.CancelTakes` | awa-model/src/batch_operations.rs:326-343 | a request puts every pending, scanning or running operation in cancelling and changes nothing else; finished ones are left alone |
| `BatchCancel.StaysStopping` | awa-model/src/batch_operations.rs:326-343 | from then on, whatever happens, it is cancelling or finished |
| `BatchCancel.OneMorePage` | awa-model/src/batch_operations.rs:632-640 | a scan that was asked to stop inserts at most one more page |
| `BatchCancel.CancelledCleanly` | awa-model/src/batch_operations.rs:385-489 | once it is cancelling and no run works on it, no mutation of it ever commits again; it is cancelling, or cancelled with every pending item skipped and every other as it was |
| `BatchCancel.CancelFinishes` | awa-model/src/batch_operations.rs:395-403 | and the next run of it that is not cut short ends it so |
| `BatchScan.ItemsMatched` | awa-model/src/batch_operations.rs:598-668 | every item matched the filter at some moment of the run |
| `BatchScan.ItemsMet` | awa-model/src/batch_operations.rs:1119-1157 | so no job outside a named state, kind, queue, tag, id or date bound is ever an item |
| `BatchScan.SteadyMeans` | awa-model/src/batch_operations.rs:598-668 | the jobs tracked through a scan are exactly those that matched throughout it |
| `BatchScan.ScanComplete` | awa-model/src/batch_operations.rs:598-668 | when an operation starts running it holds every job that matched throughout the final scan, whatever came, went or crashed before |
| `BatchScan.ScanHoldsMet` | awa-model/src/batch_operations.rs:598-668 | and from the rows, every job that had not started and met every named condition throughout is one |
| `BatchScan.StaticScan` | awa-model/src/batch_operations.rs:598-668 | over an unchanging match set, with any page sizes, crashes and rescans, the items are exactly the matching jobs and `total_matched` counts them |
| `BatchProgress.ProgressBound` | awa-model/src/batch_operations.rs:385-489 | an operation no step of the run disturbed is completed after exactly max(1, ceil(n/c)) claims, no more and no fewer |
| `BatchProgress.ChunksIsCeiling` | awa-model/src/batch_operations.rs:721-741 | chunk by chunk is that closed form |
| `BatchStore.Store.CommitOther` | awa-model/src/batch_operations.rs:266-343 | a submission, cancellation request or outside job change is one step; a request leaves every unfinished operation cancelling |
| `BatchStore.Store.ClaimNext` | awa-model/src/batch_operations.rs:568-596 | claims the oldest unfinished operation not locked by another session, or reports that there is none |
| `BatchStore.Store.ReadMax` | awa-model/src/batch_operations.rs:604-606 | the greatest matching id, or 0 without one |
| `BatchStore.Store.CountMatching` | awa-model/src/batch_operations.rs:607-611 | the matched total |
| `BatchStore.Store.LoadIds` | awa-model/src/batch_operations.rs:614-626 | an empty page ends the scan; any other moves the cursor forward |
| `BatchStore.Store.Cancelled` | awa-model/src/batch_operations.rs:632-640 | the state check after a page stops the scan exactly if the operation is cancelling |
| `BatchStore.Store.InsertIds` | awa-model/src/batch_operations.rs:697-719 | inserts new items and leaves present ones |
| `BatchStore.Store.StartRunning` | awa-model/src/batch_operations.rs:643-667 | runs, with the counted total, exactly if the operation is still scanning |
| `BatchStore.Store.ScanPages` | awa-model/src/batch_operations.rs:613-641 | the page loop terminates, at the end or at a cancellation |
| `BatchStore.Store.ScanOperation` | awa-model/src/batch_operations.rs:598-668 | ends running, or cancelling and idle, without touching a mutation |
| `BatchStore.Store.SelectIds` | awa-model/src/batch_operations.rs:721-741 | the first pending items in order, at most the chunk size and at least one if any is pending |
| `BatchStore.Store.CommitItem` | awa-model/src/batch_operations.rs:795-817 | mutation and outcome in one transaction; only a processed item adds a mutation |
| `BatchStore.Store.RecordFailure` | awa-model/src/batch_operations.rs:803-812 | the second transaction after a failed job update |
| `BatchStore.Store.ApplyOne` | awa-model/src/batch_operations.rs:795-817 | one item under any fate of its transactions |
| `BatchStore.Store.ApplyChunk` | awa-model/src/batch_operations.rs:433-448 | every item of the chunk is counted once, and processed counts the committed mutations |
| `BatchStore.Store.CountPending` | awa-model/src/batch_operations.rs:450-460 | whether no item is pending |
| `BatchStore.Store.ReadState` | awa-model/src/batch_operations.rs:462-480 | what the state read after the chunk says and decides |
| `BatchStore.Store.SkipPendingItems` | awa-model/src/batch_operations.rs:743-767 | skips what is pending and adds no mutation |
| `BatchStore.Store.FinalizeOperation` | awa-model/src/batch_operations.rs:670-695 | the operation is finished in the given state |
| `BatchStore.Store.Conclude` | awa-model/src/batch_operations.rs:450-480 | finalizes exactly when nothing is pending |
| `BatchStore.Store.RunOneChunk` | awa-model/src/batch_operations.rs:385-489 | a run of the machine from idle to idle; it reports finalized exactly for a finished operation and processed exactly the mutations it committed; an operation claimed while cancelling ends cancelled without a mutation |
| `Callbacks.StepInv` | awa-model/src/admin.rs:3349-4394 | every callback, handler and operator transaction keeps the row and token invariant |
| `Callbacks.AtMostOnce` | awa-model/src/admin.rs:3632-3835 | over every interleaving at most one complete, fail, resume, retry or deciding resolve succeeds per callback id |
| `Callbacks.CallbackColumns` | awa-model/src/admin.rs:611-692 | a set `callback_id` means running or waiting, waiting means a set `callback_id`, the callback columns are set and cleared together, and no two rows share an id |
| `CallbackHistory.CallbackIsRegistered` | awa-model/src/admin.rs:4181-4201 | after every run the callback a row holds was registered for that job with the configuration the row holds, and times out when its registration or its last heartbeat said |
| `CallbackHistory.ArrivedAs` | awa-model/src/admin.rs:3349-4394 | every job keeps the kind and queue it arrived with |
| `CallbackHistory.LeaseCounts` | correctness/README.md:207 | the lease is the number of claims of the job, so no two attempts share one |
| `CallbackDelivery.PayloadDelivery` | awa-model/src/admin.rs:3938-4028 | in a disciplined run every payload received is that of the resume of the very token waited on, and each token delivers at most once |
| `CallbackDelivery.DeliveryIff` | awa-model/src/admin.rs:3976-4028 | over every run, each payload went to the token it was resumed for if and only if every poll that received one asked for the token last resumed on the job |
| `CallbackDelivery.ResultIsLast` | awa-model/src/admin.rs:3645-3670 | the result a row holds is that of the last resume on the job |
| `CallbackDelivery.PollTakesPayload` | awa-model/src/admin.rs:3976-4028 | once the awaited token is resumed, a poll for any token takes its payload, rightly if and only if it asks for that token, and a second poll gets none |
| `CallbackDelivery.PayloadNotLost` | awa-model/src/admin.rs:3645-3670 | while the attempt runs, a resumed token's payload is what the next poll returns, also when the resume came first |
| `CallbackDelivery.StaleHandlerTakesPayload` | awa-model/src/admin.rs:3976-4028 | a handler of an earlier attempt receives another token's payload |
| `CallbackDelivery.SecondRegistrationTakesPayload` | awa-model/src/admin.rs:3976-4028 | a handler that registers twice in one attempt receives the second token's payload for the first |
| `CallbackStore.ChoiceOrder` | awa-model/src/admin.rs:4397-4494 | a call is ignored exactly if the filter says no or nothing decides and that is the default; it fails the job exactly if not filtered out and failure says yes or is the default; failure beats completion |
| `CallbackStore.FailOpen` | awa-model/src/admin.rs:4397-4494 | an expression that cannot be evaluated decides as if it were absent; with none left the default decides |
| `CallbackStore.Store.ClaimJob` | correctness/README.md:207 | succeeds exactly on an available row; its lease is the number of claims of the job, and the attempt starts without a callback |
| `CallbackStore.Store.RegisterCallback` | awa-model/src/admin.rs:4123-4207 | succeeds exactly on the running row of that lease; the row then holds the configuration and timeout of the call, the new id is live, the id it replaces can decide nothing any more, and every other id and row is as before |
| `CallbackStore.Store.EnterCallbackWait` | awa-model/src/admin.rs:3938-3969 | enters exactly if the id can decide the running row under the lease; afterwards exactly the same ids can decide |
| `CallbackStore.Store.CheckCallbackState` | awa-model/src/admin.rs:3976-4028 | a payload came with some resume and is handed out once; pending means the id can still decide the row, stale names the id that can instead, and no other answer finds the job waiting |
| `CallbackStore.Store.ClearCallback` | awa-model/src/admin.rs:3881-3907 | clears exactly the running row of that lease; its id can decide nothing any more, every other id is as live as before |
| `CallbackStore.Store.CompleteExternal` | awa-model/src/admin.rs:3672-3701 | succeeds exactly on a live id; the job is completed, no call with the id can succeed again, and every other id is as live as before |
| `CallbackStore.Store.ResumeExternal` | awa-model/src/admin.rs:3645-3670 | succeeds exactly on a live id; a poll then gets the payload, null if none was given, no call with the id can succeed again, and every other id is as live as before |
| `CallbackStore.Store.FailExternal` | awa-model/src/admin.rs:3719-3768 | succeeds exactly on a live id; the job has failed, no call with the id can succeed again, and every other id is as live as before |
| `CallbackStore.Store.RetryByCallback` | awa-model/src/admin.rs:3791-3835 | puts exactly a waiting job back and its id can decide nothing any more; a refused live id belongs to a running job |
| `CallbackStore.Store.ResolveCallback` | awa-model/src/admin.rs:4254-4394 | succeeds exactly on a live id and decides by the configuration registered for that id: filter, then failure, then completion, then default; an ignored id stays live and the table unchanged, a deciding call ends the job and the id |
| `CallbackStore.Store.HeartbeatCallback` | awa-model/src/admin.rs:3845-3874 | moves a waiting row's timeout and nothing about which ids can decide; a refused live id belongs to a running job |
| `CallbackStore.Store.RetryJob` | awa-model/src/admin.rs:611-637 | succeeds exactly on failed, cancelled and waiting jobs; the job can be claimed again and the id it waited on can decide nothing |
| `CallbackStore.Store.CancelJob` | awa-model/src/admin.rs:640-692 | succeeds exactly on unfinished jobs; the job is cancelled and its id can decide nothing; it says when a worker must be told, and every other id is as live as before |
| `CallbackStore.Store.RetryFailedByKind` | awa-model/src/admin.rs:1007-1052 | makes exactly the failed rows of a kind available and changes nothing else; none of them has a callback |
| `CallbackStore.Store.RetryFailedByQueue` | awa-model/src/admin.rs:1055-1100 | makes exactly the failed rows of a queue available and changes nothing else; none of them has a callback |
| `CallbackStore.Store.DrainQueue` | awa-model/src/admin.rs:1233-1268 | counts and cancels exactly the rows of the queue that are neither running nor finished; the ids they held can decide nothing |
| `JobListing.Query` | awa-model/src/admin.rs:539-563 | the top candidates below the cursor |
| `JobListing.FilterPage` | awa-model/src/admin.rs:568-598 | reloads and filters one page, stopping at the limit |
| `JobListing.ListJobs` | awa-model/src/admin.rs:527-608 | over a fixed table the loop terminates with exactly the first `limit` matching jobs below `before_id`, descending, at most 1000; every listed job has the named state, kind, queue and tag, and one that has and is missing is below a full list |
| `JobListing.LimitIs` | awa-model/src/admin.rs:532 | the asked length, 100 without one, from 1 to 1000 in any case |
| `JobListing.TopUnique` | awa-model/src/admin.rs:527-608 | that list is determined by the filter and the table |
| `JobListing.SortedAlready` | awa-model/src/admin.rs:606-607 | the final sort changes nothing |
| `RuntimeConfig.MatchIsIrregular` | awa-model/src/admin.rs:1947-1963 | matching is neither reflexive nor transitive |
| `RuntimeConfig.MatchIff` | awa-model/src/admin.rs:1947-1963 | two configurations match exactly if they are equal up to claimers and batch size, know nothing different about `dlq_enabled`, and hold no NaN |
| `RuntimeConfig.ConfigMismatch` | awa-model/src/admin.rs:2248-2266 | comparing each candidate with the representative reports a mismatch if and only if some two candidates do not match |
| `RuntimeConfig.RepresentativeSuffices` | awa-model/src/admin.rs:1965-1980 | if all match the representative, any two match |
| `RuntimeConfig.OrderIrrelevant` | awa-model/src/admin.rs:2248-2266 | the answer depends on the reported configurations, not their order |
| `CopyWriter.Buffer.WriteField` | awa-model/src/insert.rs:848-867 | appends the CSV form of a text |
| `CopyWriter.Buffer.WriteQuotedElement` | awa-model/src/insert.rs:887-900 | the single pass is array escaping followed by CSV quote doubling |
| `CopyWriter.Buffer.WriteArray` | awa-model/src/insert.rs:871-907 | appends the CSV quoting of the array literal |
| `CopyWriter.Buffer.WriteRow` | awa-model/src/insert.rs:787-845 | appends the twelve columns in order and the row end |
| `CopyWriter.Buffer.WriteRows` | awa-model/src/insert.rs:538-541 | appends every row |
| `CopyWriter.DecimalPlain` | awa-model/src/insert.rs:801-805 | numbers are written raw because none ever needs quoting |
| `CopyRoundTrip.CellReads` | awa-model/src/insert.rs:848-867 | every column text comes back, the empty text and the NULL sentinel included |
| `CopyRoundTrip.DocumentReads` | awa-model/src/insert.rs:787-845 | the whole text comes back as one record per row, field by field |
| `CopyRoundTrip.ArrayReads` | awa-model/src/insert.rs:871-907 | exactly how any array literal comes back |
| `CopyRoundTrip.TagsKeptIff` | awa-model/src/insert.rs:878-885 | tags come back unchanged if and only if each is quoted or has no white space at its ends |
| `CopyRoundTrip.BareTagTrimmed` | awa-model/src/insert.rs:878-902 | a lone unquoted tag comes back trimmed, as NULL, or not at all |
| `CopyRoundTrip.BlankTagMalformed` | awa-model/src/insert.rs:878-902 | a blank unquoted tag beside another makes the array malformed |
| `CopyRoundTrip.TabIsLost` | awa-model/src/insert.rs:878-902 | a concrete tag that loses its tab |
| `CopyRoundTrip.RowReads` | awa-model/src/insert.rs:787-845 | every column but the tags comes back exactly, numbers, bytes and NULLs included |
| `CopyRoundTrip.CopyMatchesInsertIff` | awa-model/src/insert.rs:733-782 | COPY stages the rows of the `unnest` insert if and only if every tag survives |

## Left out

- The queue-storage engine, the worker runtime, dispatcher and completion batcher: the model covers the canonical branches; the listing runs over an abstract job table.
- Worker-side finalisation and rescue of a running job: what they do to callback columns is not claimed; a running row leaves that state only by callback and operator transactions.
- Loss of the advisory-lock session during a batch run, and isolation anomalies: locks exclude, transactions are atomic.
- Cron expression parsing, time zones and daylight saving: an abstract increasing sequence of fires at whole seconds.
- Digest collisions, expression evaluation, id generation and JSON text: a digest constructor, an evaluator parameter, fresh ids, and JSON or timestamp columns held as text in the encoder.
- The order of names in plan lists and of revisions in a retirement: sets are compared, not collations. The columns `updated_at`, `paused_by`, `errors`, `attempt`, `progress` and `heartbeat_at` carry no property here.
- `check_registration`, `owners`, manual triggers and operation retention cleanup: they would only add easy members.
- Queue-storage variants of the batch mutations, and metadata keys other than the two stamps.
- Descriptors, overviews, metrics, the command line, bridges, adapters and the dead-letter queue.
- `CronFiring.NoDoubleFire`: states the order per generation of a schedule and for runs whose restores are in time, because outside them the code repeats fires; `CronFiringExact.RestoreSafeIff` and `CronFiringExact.RecreateSafeIff` say exactly when.
- `CopyReader.ReadBare`: refuses backslashes in unquoted elements and nested arrays, which the encoder never writes.
