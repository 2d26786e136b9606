# Verification model of an embedding server

This project models the protocols at the heart of a server that runs sentence-embedding models,
and proves what they promise. Sources are cited by path and line of the repository.

Components, one module (or two) each:

- **Batch formation** (`Scheduling`), **batch execution** (`Batching`, `BatchAnswers`) and the
  **scheduler's life** (`SchedulerLife`, `SchedulerPromises`, `SchedulerService`): requests are
  preflighted, sorted, greedily merged under a row bound and a padded-cell bound, run as one native
  call, validated and split back while cancellation and shutdown race. The headline is that batching
  is invisible, and that nobody is turned away without a reason.
- **ONNX adapter** (`OnnxProbe`, `OnnxAdapter`, `AdapterMeaning`): the explicit worklist that looks
  for external data in nested graphs, the padded tensor layout whose size must agree with the
  scheduler, and what a call means in terms of tokenizer and session.
- **Crash-safe model store** (`Durability`, `Store`, `StoreRuns`): promotion with a marker and a
  backup, recovery, quarantine, deletion through a tombstone. A disk is the visible image plus the
  set of images a crash could leave. Every filesystem call may fail, or be the last one before a
  crash, recovery included; which ones do is a parameter, so that an operation can be shown to fail
  exactly if one of its calls did and to succeed when retried.
- **Store leases** (`StoreLease`): the shared/exclusive lock handed out with verified models.
- **Cancellation graph** (`Cancellation`, `CancellationProgress`) and **execution controls** (`Control`).
- **Runtime registries** (`Registry`, `RegistryRuns`), **graceful shutdown** (`Drain`), the **install
  commit gate** (`InstallGate`) and **queue admission** (`Admission`).
- **Artifact identity** (`ManifestRules`, `ArtifactIdentity`) and **line framing** (`LineFraming`).

`EmbeddingCore` and `Sorting` hold shared vocabulary.

Concurrent protocols are state machines over atomic steps. A schedule is any sequence of actions; an
action that is not possible at its turn does nothing, so a statement about all schedules is a
statement about every interleaving. Code that updates fields or buffers is a class or a method with
loops, proved against functions that lemmas then speak about.

## Results that differ from a first reading of the code

- **Empty encodings.** Preflight bills at least one token per input while usage reports the real
  length, so the two agree exactly if no encoding is empty. A request containing an empty encoding is
  admitted, can never be served, and fails every request it is batched with
  (`TokenCheckPassesIffNonEmpty`, `EmptyEncodingIsAdmitted`, `EmptyEncodingNeverServed`).
- **Recovery in the same boot.** Suppose the replacement has been renamed into place and neither
  `models` nor `staging` has been synced since: the process died right after the rename, or the first
  sync failed and so did the rollback's, or the rename was a recovery's own, which has no rollback. A
  recovery before the next restart quarantines the backup without syncing either. On a filesystem that
  persists directories independently a crash can then keep the second rename and lose the first,
  leaving a marker, or nothing at all, where the model was. `PromotionRisk` and `RiskyExact` give the
  exact conditions, `UnsyncedPromotionCanLoseTheModel` the concrete case. A restart first, any sync of
  either directory, or an ordered journal excludes it. A disk is at risk only right after a call that
  failed (`ExposedOnlyAfterFailure`), so restarting after every failure is enough. The store's methods are
  proved from every state, and say what a recovery at risk gives up.
- **Import cleanup.** Removing the staging tree after a failed import can stop half way; recovery then
  installs the incomplete tree exactly if a marker is there (`SpoilExact`, `TornStagingIsPromoted`).
  Until a failed import leaves a possible marker, no run installs an incomplete tree (`RunStore`).
- **Two registry reads.** A request's slot and its lease come from two reads; they name the same slot
  exactly if no call in between asked to unload the model while nothing leased it (`TwoReadsAgree`,
  `LeaseOnAnotherSlot`).
- **Nested composites.** Two levels of composite controls would report a deadline as a cancellation
  (`NestedCode`); the runtime builds one level.

## Model

| member | source | states |
|---|---|---|
| `EmbeddingCore.NewCost` | crates/impossible-embedding-core/src/lib.rs:39-57 | a batch cost exists exactly if rows and longest row are positive, the padded product fits the machine word and bounds the token count |
| `Scheduling.Preflight` | crates/impossible-server/src/runtime.rs:1754-1781 | a request passes exactly if the job ran without panic, the control was active before and after, both engine answers are good, and the result is admissible and for the model asked for; which refusal each obstacle gets |
| `Scheduling.JoinsIsCompatible` | crates/impossible-server/src/runtime.rs:1917-1928 | the checked running test (options, rows, rows times longest row) is the bound on the batch with the candidate added, overflow included |
| `Scheduling.FormBatch` | crates/impossible-server/src/runtime.rs:1910-1937 | the rotating scan of the deque yields the greedy batch and leaves the rest in order |
| `Scheduling.DrainPending` | crates/impossible-server/src/runtime.rs:1900-1948 | the whole inner loop equals the recursive drain of the sorted queue |
| `Scheduling.ScanFits` | crates/impossible-server/src/runtime.rs:1913-1935 | a batch grown by the scan still respects both bounds |
| `Scheduling.GrowingNeverHelps` | crates/impossible-server/src/runtime.rs:1920-1928 | a candidate that does not fit now will not fit a larger batch, so one pass is enough |
| `Scheduling.ScanMaximal` | crates/impossible-server/src/runtime.rs:1913-1937 | no request left behind with the same options could still be added |
| `Scheduling.DrainMaximal` | crates/impossible-server/src/runtime.rs:1900-1948 | over a whole drain, no request handled after a batch with the same options would have fitted it |
| `Scheduling.ScanSameOptions` | crates/impossible-server/src/runtime.rs:1924-1930 | every member shares the first member's options |
| `Scheduling.KeepPartition` | crates/impossible-server/src/runtime.rs:1913-1937 | taken and left-behind requests together are exactly the scanned ones |
| `Scheduling.KeepAscending` | crates/impossible-server/src/runtime.rs:1897-1937 | selecting from an ascending queue keeps arrival order on both sides |
| `Scheduling.SortedRound` | crates/impossible-server/src/runtime.rs:1897-1899 | requests with distinct sequence numbers are strictly ascending after the sort |
| `Scheduling.DrainPartitions` | crates/impossible-server/src/runtime.rs:1900-1948 | each drain answers or dispatches every pending request exactly once |
| `Scheduling.BatchWellFormed` | crates/impossible-server/src/runtime.rs:1910-1945 | starting from an admitted head, a batch has equal options, ascending sequence and both bounds, and leftovers stay ascending |
| `Scheduling.DrainWellFormed` | crates/impossible-server/src/runtime.rs:1900-1948 | that holds of every batch of a drain |
| `Scheduling.HandledInTime` | crates/impossible-server/src/runtime.rs:1900-1948 | the request at position k is answered or dispatched within k+1 iterations |
| `Scheduling.EarlierFirst` | crates/impossible-server/src/runtime.rs:1913-1935 | a request joins a batch exactly if it shares the head's options and fits with the members that arrived before it |
| `Scheduling.HeadDecides` | crates/impossible-server/src/runtime.rs:1901-1945 | at each iteration of a drain the popped request is refused exactly with its control's own code, and otherwise heads a dispatched batch |
| `Batching.SliceIsOwn` | crates/impossible-server/src/runtime.rs:2015-2020 | the rows at a member's offset of the concatenated call are its own inputs |
| `Batching.CheckedSum` | crates/impossible-server/src/runtime.rs:2058-2061 | the overflow-checked fold is the sum, or nothing beyond the limit |
| `Batching.ValidEngineOutput` | crates/impossible-server/src/runtime.rs:2057-2108 | accepts an engine's output exactly if counts, widths, identity, totals and every member's token sum match, across slices |
| `Batching.PublishResults` | crates/impossible-server/src/runtime.rs:2110-2153 | consuming vectors and usage one slice at a time gives each member its slice, also when earlier members are skipped midway |
| `Batching.ExecuteBatch` | crates/impossible-server/src/runtime.rs:1992-2055 | filtering, concatenating, running and settling equals the functional account of the batch |
| `Batching.AnsweredExactlyOnce` | crates/impossible-server/src/runtime.rs:1992-2164 | every member is answered exactly once, for any engine, panic and hostile output included |
| `Batching.OkIsOwnSlice` | crates/impossible-server/src/runtime.rs:2057-2153 | for any engine, every success is the slice at the caller's own offset with one vector per input, contracted identity and width, and usage equal to its preflight cost |
| `Batching.AloneIsExecuted` | crates/impossible-server/src/runtime.rs:1992-2055 | what a request gets alone is the code run on a one-member batch |
| `Batching.BatchingIsInvisible` | crates/impossible-server/src/runtime.rs:1992-2153 | for an engine that treats inputs independently, every success equals what running the request alone returns |
| `BatchAnswers.ActiveExact` | crates/impossible-server/src/runtime.rs:1998-2010 | every member that is accepted and active at the start takes part in the native call, as often as it was submitted, and no other |
| `BatchAnswers.EveryAnswerIsDue` | crates/impossible-server/src/runtime.rs:1992-2164 | for any engine, each reply is the one due: the fence's or the control's code at the start, the call's failure unless the caller's own code wins, the fence's or the control's code at publication, and otherwise a success |
| `BatchAnswers.ServedAloneIff` | crates/impossible-server/src/runtime.rs:1992-2153 | alone and undisturbed, a request succeeds with its rows exactly if they meet everything it was promised |
| `BatchAnswers.HarmlessNeighbours` | crates/impossible-server/src/runtime.rs:1992-2153 | conversely, if every member live at the start would succeed alone, the batch gives out exactly the replies of running its members one by one in the same world, as a multiset |
| `SchedulerLife.EachRequestOneOutcome` | crates/impossible-server/src/runtime.rs:1849-1990 | over a scheduler's whole life, across stop, full pool, lost job, abort and success, each request received has exactly one outcome: one answer or a dropped sender |
| `SchedulerLife.EverySuccessContracted` | crates/impossible-server/src/runtime.rs:1849-2153 | no caller ever receives an uncontracted success |
| `SchedulerLife.RunSteps` | crates/impossible-server/src/runtime.rs:1900-1948 | running a round step by step logs what the round means, also when its task is aborted at a yield |
| `SchedulerLife.RunScheduler` | crates/impossible-server/src/runtime.rs:1849-1958 | the scheduler loop has both properties |
| `SchedulerPromises.RoundBatches` | crates/impossible-server/src/runtime.rs:1897-1948 | every batch a round dispatches shares its options, stays within both bounds and comes from the collected requests |
| `SchedulerPromises.RoundWorkBound` | crates/impossible-server/src/runtime.rs:1897-1948 | every native call of a round stays within the padded work bound, whoever dropped out before it |
| `SchedulerPromises.BatchingIsInvisibleForLife` | crates/impossible-server/src/runtime.rs:1849-2153 | over a scheduler's whole life, every success a caller receives is what its request alone would have returned |
| `SchedulerService.RoundReasoned` | crates/impossible-server/src/runtime.rs:1897-1990 | in a round of healthy requests every outcome has a reason in one of its iterations: the request's own control, the fence, a full pool, a lost job or an abort, and otherwise it is the request's own result |
| `SchedulerService.NobodyIsTurnedAwayForNothing` | crates/impossible-server/src/runtime.rs:1849-2164 | that holds over a scheduler's whole life, with the closing of the scheduler as the only further reason |
| `SchedulerService.EveryoneIsServed` | crates/impossible-server/src/runtime.rs:1849-2153 | a scheduler that nothing interferes with serves every request it receives, each as if alone |
| `OnnxProbe.ScanAttributes` | crates/impossible-embedding-onnx/src/lib.rs:670-691 | the attribute loop finds external data or pushes every nested graph, losing no tensor |
| `OnnxProbe.CollectFunctions` | crates/impossible-embedding-onnx/src/lib.rs:633-650 | the starting worklist covers main graph, training graphs and functions |
| `OnnxProbe.RejectExternalDataGraph` | crates/impossible-embedding-onnx/src/lib.rs:629-707 | a decoded model is rejected exactly if some tensor reachable at any depth uses external data; the worklist loop terminates by remaining graph size |
| `OnnxAdapter.PreflightWithOptions` | crates/impossible-embedding-onnx/src/lib.rs:246-281 | the cost loop succeeds exactly when dimensions, every encoding and the checked totals are valid, and returns rows, billed tokens and longest row |
| `OnnxAdapter.FillTensor` | crates/impossible-embedding-onnx/src/lib.rs:382-391 | in-place filling of the padded buffer gives the row-major padded rows |
| `OnnxAdapter.PackTensors` | crates/impossible-embedding-onnx/src/lib.rs:371-391 | the three tensors exist exactly if rows times width fits the machine word |
| `OnnxAdapter.RowOfTensor` | crates/impossible-embedding-onnx/src/lib.rs:382-391 | row r of a packed tensor is encoding r followed by padding |
| `OnnxAdapter.PaddingIsInvisible` | crates/impossible-embedding-onnx/src/lib.rs:731-763 | pooling ignores masked columns, so extra padding never changes a row's vector |
| `AdapterMeaning.PoolExact` | crates/impossible-embedding-onnx/src/lib.rs:731-763 | pooling fails exactly if nothing is masked in, and otherwise reads the first or the last masked-in position, as its name says |
| `AdapterMeaning.MeanExact` | crates/impossible-embedding-onnx/src/lib.rs:751-762 | mean pooling divides the sum over all masked-in positions by their number |
| `AdapterMeaning.OneText` | crates/impossible-embedding-onnx/src/lib.rs:284-456 | a call for one text from end to end: the prefix of its task exactly once, its own tensors, pooling, truncation before normalization, the real token count as usage |
| `AdapterMeaning.OneTextRefused` | crates/impossible-embedding-onnx/src/lib.rs:347-361 | a text that cannot be tokenized or is too long is refused as invalid |
| `OnnxAdapter.AdapterIsPointwise` | crates/impossible-embedding-onnx/src/lib.rs:284-330 | if the network works row by row, the adapter treats inputs independently, which is what batching needs |
| `OnnxAdapter.CallShape` | crates/impossible-embedding-onnx/src/lib.rs:371-381 | the native call for a batch has the scheduler's row count and longest row |
| `OnnxAdapter.PaddedWorkBound` | crates/impossible-embedding-onnx/src/lib.rs:371-381 | its padded capacity never exceeds the token bound, even after inactive members are dropped, and equals the scheduler's own product when none is |
| `OnnxAdapter.UsageMatchesPreflight` | crates/impossible-embedding-onnx/src/lib.rs:263-317 | billed usage equals preflight's token count exactly if no encoding is empty |
| `OnnxAdapter.TokenCheckPassesIffNonEmpty` | crates/impossible-server/src/runtime.rs:2085-2099 | whatever the network computed, a member of any batch passes the token check on the adapter's output exactly if none of its encodings is empty |
| `OnnxAdapter.EmptyEncodingNeverServed` | crates/impossible-server/src/runtime.rs:2045-2108 | for any adapter, batch and world: one active member with an empty encoding and every reply of the batch is an error, its healthy neighbours' included |
| `OnnxAdapter.EmptyEncodingIsAdmitted` | crates/impossible-embedding-onnx/src/lib.rs:270-281 | concrete case: such a request nevertheless passes preflight |
| `Durability.ChangeKeepsOrder` | crates/impossible-models/src/store.rs:1577-1642 | every change the code makes, wherever it makes it, keeps backups under markers and deletions remembered, in every image a crash could leave |
| `Durability.ChangeKeepsCovered` | crates/impossible-models/src/store.rs:1577-1642 | a change that lands only on images with a model opens no hole in any of them |
| `Durability.RiskyExact` | crates/impossible-models/src/store.rs:1770-1800 | the quarantine step with its syncs opens a hole in some image exactly if the disk is at risk |
| `Durability.PromotionRisk` | crates/impossible-models/src/store.rs:1699-1728 | after the rename that promotes a replacement, the disk is at risk exactly if directories persist independently and neither `models` nor `staging` has been synced since, for every sequence of syncs |
| `Durability.IsolatingAtRiskCanLose` | crates/impossible-models/src/store.rs:1770-1800 | quarantining at risk leaves a possible image without any model |
| `Durability.SyncedModelsNotRisky` | crates/impossible-models/src/store.rs:1699-1728 | after a sync of `models`, or with an ordered journal, recovery is never at risk |
| `Durability.UnsyncedPromotionCanLoseTheModel` | crates/impossible-models/src/store.rs:1843-1853 | concrete case of the gap: promotion visible but unsynced, recovery in the same boot, then a crash leaves neither model |
| `Durability.RecoveryDescends` | crates/impossible-models/src/store.rs:1811-1857 | every change recovery makes strictly lowers a rank, so recoveries converge |
| `Durability.RecoveryNeverStuck` | crates/impossible-models/src/store.rs:1829-1850 | a hole-free image with a marker always offers a next change |
| `Durability.RecoveryConserves` | crates/impossible-models/src/store.rs:1811-1857 | no change recovery makes creates or destroys a tree |
| `Durability.RecoveredIsSafe` | crates/impossible-models/src/store.rs:1811-1857 | a completed recovery installs the staged replacement, or the backup if staging vanished, with everything displaced in quarantine |
| `Durability.RecoveredIsIntact` | crates/impossible-models/src/store.rs:1811-1857 | from an image whose installed, backed-up and promotable trees are complete, recovery ends with a complete tree installed |
| `Durability.ChangeKeepsWhole` | crates/impossible-models/src/store.rs:1577-1642 | no guarded change lets an incomplete tree become installed, backed up or promotable in any possible image |
| `Durability.RecoveryConfluent` | crates/impossible-models/src/store.rs:1811-1857 | stopping a recovery anywhere and starting over ends in the same place |
| `Durability.RecoveryIsAtomic` | crates/impossible-models/src/store.rs:1829-1857 | recovering any durable image of a replacement gives the untouched previous model or the finished replacement |
| `Durability.ReplacingStep` | crates/impossible-models/src/store.rs:1577-1642 | a replacement step keeps all possible images within one step of the visible one |
| `Durability.RenameKeepsInv` | crates/impossible-models/src/store.rs:1699-1728 | with the syncs before it, every rename of the store keeps the invariant, and opens no hole unless it quarantines at risk |
| `Durability.RenameKeepsReplacing` | crates/impossible-models/src/store.rs:1699-1728 | a durable rename advances a replacement in every possible image |
| `Store.ModelStore.DurableRename` | crates/impossible-models/src/store.rs:1699-1728 | whatever fails, the rename happened or not; on success both parents are durable; no hole unless it quarantines at risk |
| `Store.ModelStore.ResumeRenames` | crates/impossible-models/src/store.rs:1811-1850 | the recovery match gives up exactly on a marker without a model; otherwise the visible image is unchanged or has strictly less left to do |
| `Store.ModelStore.IsolateBackup` | crates/impossible-models/src/store.rs:1770-1800 | moves the backup to quarantine; safe unless the disk is at risk, and if it is, losing the model becomes possible |
| `Store.ModelStore.DropMarker` | crates/impossible-models/src/store.rs:1852-1856 | marker removal and its closing sync |
| `Store.ModelStore.Reconcile` | crates/impossible-models/src/store.rs:1811-1857 | from any state: gives up exactly on a visible marker without a model, is stopped exactly by a filesystem call that fails, and otherwise completes at the recovered image; loses no tree, strictly lowers the rank or changes nothing; opens no hole unless the disk is at risk, and completing it at risk makes losing the model possible |
| `Store.ModelStore.PrepareStaging` | crates/impossible-models/src/store.rs:1492-1525 | leaves a fresh empty staging tree with models and transactions durable |
| `Store.ModelStore.Replace` | crates/impossible-models/src/store.rs:1607-1642 | displace, promote, quarantine, unmark with both rollbacks: done exactly if no filesystem call failed; done means replaced and rolled back means untouched, in every image; a failed promotion is rolled back unless a second call fails or the replacement is already visible, and a failure that leaves the previous model in place takes the marker off unless a second call fails |
| `Store.ModelStore.PutBack` | crates/impossible-models/src/store.rs:1619-1632 | after a failed promotion the previous model is back in every image exactly if no further call fails, unless the replacement is already visible |
| `Store.ModelStore.Unmark` | crates/impossible-models/src/store.rs:1615-1618 | taking the marker off succeeds exactly if no call fails |
| `Store.ModelStore.ReplaceInstalled` | crates/impossible-models/src/store.rs:1589-1607 | the not-clean error is unreachable and the marker is durable before anything moves; done and rolled back hold in every image; needs recovery only if the replacement is visible or two calls failed |
| `Store.ModelStore.AddFresh` | crates/impossible-models/src/store.rs:1582-1585 | a first installation is either absent or complete in every image |
| `Store.ModelStore.PromoteStaged` | crates/impossible-models/src/store.rs:1567-1642 | done exactly if no filesystem call failed; whatever fails, every image is untouched or one step of installing exactly the staged tree |
| `Store.ModelStore.Install` | crates/impossible-models/src/install.rs:249-323 | from any state, tombstones included: fails exactly if a filesystem call (or the download, one such call here) did or a hole is visible, stops at once at a crash, and leaves a verified model alone; done means the new complete tree is durably installed, and anything else leaves what recovery would have installed or this installation in progress |
| `Store.ModelStore.Import` | crates/impossible-models/src/store.rs:580-654 | as install; a failed attempt leaves the model as it was, the import in progress, or old or new in every image, unless its cleanup met a possible marker; after a failed promotion the staging tree is gone unless a second call failed |
| `Store.ModelStore.RemoveTombstone` | crates/impossible-models/src/store.rs:800-819 | removes the tombstone durably |
| `Store.ModelStore.DiscardStaging` | crates/impossible-models/src/store.rs:649-651 | the cleanup leaves the old model's entry or the whole new model in every image, unless a marker is possible when it starts, and no staging tree unless a call fails |
| `Store.ModelStore.Delete` | crates/impossible-models/src/store.rs:730-797 | from any state: fails exactly if a filesystem call did, a hole is visible or the manifest differs; success means no marker, model, backup or tombstone in any image; the result says whether anything was there; a differing manifest leaves the model whatever happens |
| `StoreRuns.InstallIsAtomic` | crates/impossible-models/src/store.rs:1567-1642 | recovering any image of an interrupted installation gives the old model or all of the new one |
| `StoreRuns.RecoverThroughCrashes` | crates/impossible-models/src/store.rs:1811-1857 | any number of crashes, restarts and failing recoveries: if fewer filesystem calls fail than there are recoveries, one completes, and then the previous model or the whole replacement is there |
| `StoreRuns.Perform` | crates/impossible-models/src/store.rs:718-797 | one call of any kind from any state: what each outcome means for the disk, failure exactly on a filesystem fault, risk only after a failure, holes only from a call other than a restart on a disk at risk, no resurrection of a deleted model |
| `StoreRuns.RunStore` | crates/impossible-models/src/store.rs:1567-1857 | over every script of installs, imports, recoveries, deletions and restarts and every pattern of filesystem faults: the disk between any two calls is free of holes unless an earlier call, other than a restart, met a disk at risk, and free of incomplete trees installed, backed up or left to promote unless an earlier failed import left a possible marker; a deleted model stays deleted throughout |
| `StoreRuns.Retry` | crates/impossible-models/src/store.rs:580-819 | install, import, recovery or deletion repeated from any hole-free disk, with or without a restart before each try, reaches its end if fewer filesystem calls fail than there are tries, whatever marker, backup, staging tree or tombstone was left behind |
| `StoreRuns.ExposedOnlyAfterFailure` | crates/impossible-models/src/store.rs:1811-1857 | in any run, only the call right after a failed one can meet a disk at risk, and only where directories persist independently |
| `StoreRuns.RestartingAfterFailures` | crates/impossible-models/src/store.rs:1811-1857 | a run that restarts the machine after every failed call never meets a disk at risk and never has a hole |
| `StoreRuns.SucceedsIffNoFault` | crates/impossible-models/src/store.rs:580-819 | before any call met a disk at risk, a call of the run reaches its end exactly if none of its filesystem calls failed |
| `StoreRuns.FaultFreeRun` | crates/impossible-models/src/store.rs:580-819 | without filesystem faults every call of every run reaches its end and no hole appears |
| `Durability.SpoilExact` | crates/impossible-models/src/store.rs:649-651 | a half-removed staging tree reaches the installed model exactly if the image has a marker and a staging tree |
| `StoreRuns.TornStagingIsPromoted` | crates/impossible-models/src/store.rs:649-651 | what that does to a replacement: recovery installs the incomplete tree; if the removal finishes, the previous model returns |
| `StoreLease.StepKeepsInv` | crates/impossible-models/src/store.rs:442-560 | every lock, read and write step keeps what holders of the shared lock know |
| `StoreLease.LeaseIsSafe` | crates/impossible-models/src/store.rs:522-560 | in every interleaving, while a verified model lives: no marker, the directory is the one checked, it passes the complete check, and nobody can take the lock exclusively |
| `StoreLease.LeasePinsTheFiles` | crates/impossible-models/src/store.rs:522-560 | nothing any participant does changes the files while some handle of the lease is left, clones and drops counted |
| `StoreLease.LastHandleReleases` | crates/impossible-models/src/store.rs:522-560 | dropping the last handle gives the lock back |
| `StoreLease.NeverBlocksOnItself` | crates/impossible-models/src/store.rs:524-545 | no caller waits for a lock while holding one itself |
| `StoreLease.LoneVerification` | crates/impossible-models/src/store.rs:462-560 | a caller alone gets a lease exactly if the model passes the complete check |
| `StoreLease.LoneRepair` | crates/impossible-models/src/store.rs:522-560 | a caller alone that finds a marker repairs first, and is leased exactly if the repaired model passes |
| `Cancellation.WiredKept` | crates/impossible-embedding-core/src/lib.rs:522-538 | every `any` token is registered with each constituent or still on its way |
| `Cancellation.DeliveredKept` | crates/impossible-embedding-core/src/lib.rs:479-538 | a cancelled constituent's `any` token is cancelled or some call in progress will get there |
| `Cancellation.JustifiedKept` | crates/impossible-embedding-core/src/lib.rs:479-667 | flags and ready polls always trace back to requests |
| `Cancellation.RememberedKept` | crates/impossible-embedding-core/src/lib.rs:508-520 | a registered waker is woken, listed, or in the hands of the call that drained the list |
| `Cancellation.StepKeepsInv` | crates/impossible-embedding-core/src/lib.rs:479-667 | all of it holds after every step of every interleaving |
| `Cancellation.PushEqualsPull` | crates/impossible-embedding-core/src/lib.rs:479-667 | once no call is in progress each stored flag equals the recursive `is_cancelled`, and exactly the consequences of the requests are cancelled |
| `Cancellation.EveryWaiterIsWoken` | crates/impossible-embedding-core/src/lib.rs:508-520 | every poll left pending on a token now cancelled has been woken |
| `Cancellation.CancellationNeverFlowsDown` | crates/impossible-embedding-core/src/lib.rs:572-590 | a token is never cancelled by requests on tokens built from it |
| `CancellationProgress.StepLowers` | crates/impossible-embedding-core/src/lib.rs:479-667 | every step of a call in progress, wherever it is interrupted, leaves strictly less to do |
| `CancellationProgress.NeverStuck` | crates/impossible-embedding-core/src/lib.rs:479-667 | while a call is in progress some call can make a step |
| `CancellationProgress.EveryScheduleEnds` | crates/impossible-embedding-core/src/lib.rs:479-667 | however they are scheduled, the calls in progress make boundedly many steps |
| `CancellationProgress.CallsEnd` | crates/impossible-embedding-core/src/lib.rs:479-667 | after any history the calls in progress can be brought to their end |
| `CancellationProgress.OutcomeIsDetermined` | crates/impossible-embedding-core/src/lib.rs:479-667 | whatever the schedule, once the calls in progress have ended the cancelled tokens are exactly those that follow from the requests made before |
| `CancellationProgress.CancelledPollsReady` | crates/impossible-embedding-core/src/lib.rs:621-632 | every poll returns, ready or pending, and a poll of a token cancelled before it returns ready, whatever else is under way |
| `CancellationProgress.NoSpuriousWakeup` | crates/impossible-embedding-core/src/lib.rs:479-520 | a waker is woken only if a token it polled has been cancelled |
| `Control.ActiveIffSomeRequestIs` | crates/impossible-embedding-core/src/lib.rs:705-740 | a composite of any depth is active exactly while some request under it is |
| `Control.NeverActiveAgain` | crates/impossible-embedding-core/src/lib.rs:722-748 | once inactive, inactive for good, and once cancelled reported as cancelled |
| `Control.FlatCode` | crates/impossible-embedding-core/src/lib.rs:722-740 | an inactive batch reports cancellation exactly if a member was cancelled |
| `Control.OrderIsIrrelevant` | crates/impossible-embedding-core/src/lib.rs:722-740 | the order of members changes nothing |
| `Control.NestedCode` | crates/impossible-embedding-core/src/lib.rs:655-667 | with nesting, the code is `Cancelled` exactly if a direct request was cancelled or a member is itself a composite |
| `Control.CompositeTokenAgrees` | crates/impossible-embedding-core/src/lib.rs:655-667 | a composite's token counts as cancelled exactly when the composite has stopped |
| `Control.NestedDeadlineReadsAsCancelled` | crates/impossible-embedding-core/src/lib.rs:655-740 | concrete case: a nested deadline reads as a cancellation |
| `Control.EnsureActive` | crates/impossible-embedding-core/src/lib.rs:722-748 | the two passes, reading at ever later moments: success means active during the check, failure inactive at its end, and with time standing still it is the pure check |
| `Registry.Runtime.RegisterEngine` | crates/impossible-server/src/runtime.rs:822-912 | registers exactly if the id is not blank, an executor is there, the runtime is serving, the id is neither loaded nor loading, and the scheduler started; otherwise at most a key is used up |
| `Registry.Runtime.StartLoad` | crates/impossible-server/src/runtime.rs:940-965 | admission and a key of its own |
| `Registry.Runtime.Reserve` | crates/impossible-server/src/runtime.rs:966-992 | enters loading and health exactly if serving and the id is free |
| `Registry.Runtime.Publish` | crates/impossible-server/src/runtime.rs:1026-1130 | a placed reservation becomes a slot exactly if its scheduler started and the runtime is still serving; an id already loaded or a superseded reservation cannot occur |
| `Registry.Runtime.Abandon` | crates/impossible-server/src/runtime.rs:723-736 | a dropped reservation removes only its own entries |
| `Registry.Runtime.Lease` | crates/impossible-server/src/runtime.rs:1250-1258 | leases exactly a registered, accepting slot |
| `Registry.Runtime.CloneLease` | crates/impossible-server/src/runtime.rs:433-438 | a cloned lease pins the same slot once more |
| `Registry.Runtime.Release` | crates/impossible-server/src/runtime.rs:440-444 | gives the lease back, the counter staying equal to the live leases |
| `Registry.Runtime.Unload` | crates/impossible-server/src/runtime.rs:1409-1436 | succeeds exactly while serving with no live lease, removing the slot everywhere; refused as in use exactly while one is live |
| `Registry.Runtime.RegistriesAgree` | crates/impossible-server/src/runtime.rs:705-912 | while serving: disjoint ids, schedulers equal slots, health equal slots and reservations, every slot accepting |
| `Registry.WithSlotIsGood` | crates/impossible-server/src/runtime.rs:905-911 | publication keeps all registry invariants |
| `Registry.WithoutSlotIsGood` | crates/impossible-server/src/runtime.rs:1423-1435 | unloading an unleased slot keeps them |
| `Registry.ClearingIsGood` | crates/impossible-server/src/runtime.rs:1614-1623 | so does the final clearing |
| `RegistryRuns.RunRuntime` | crates/impossible-server/src/runtime.rs:705-1629 | a runtime that lives through any history of calls is exactly where the calls' meanings lead |
| `RegistryRuns.HistoryIsSound` | crates/impossible-server/src/runtime.rs:705-1629 | after any history: agreement and leasable models while serving, conserved leases, leased slots still registered, and all four registries empty once shutdown finished |
| `RegistryRuns.ShutdownAdvances` | crates/impossible-server/src/runtime.rs:1549-1629 | shutdown only moves forward, one stage at a time |
| `RegistryRuns.TwoReadsAgree` | crates/impossible-server/src/runtime.rs:1323-1340 | a slot looked up earlier is still the model's exactly if no call in between asked to unload the model while it was registered, unleased and shutdown had not begun |
| `RegistryRuns.LookUpThenLease` | crates/impossible-server/src/runtime.rs:1323-1340 | the two reads and the lease, for any calls in between, with that condition |
| `RegistryRuns.LeaseOnAnotherSlot` | crates/impossible-server/src/runtime.rs:1323-1340 | concrete case where it is not |
| `Drain.ShutdownCoordinator.Admit` | crates/impossible-server-core/src/shutdown.rs:57-67 | admits exactly while running |
| `Drain.ShutdownCoordinator.Begin` | crates/impossible-server-core/src/shutdown.rs:70-81 | moves forward only, stopping at once exactly if nothing is active |
| `Drain.ShutdownCoordinator.ForceStop` | crates/impossible-server-core/src/shutdown.rs:87-93 | terminal whatever permits remain |
| `Drain.ShutdownCoordinator.DropPermit` | crates/impossible-server-core/src/shutdown.rs:119-133 | the last permit ends a drain and nothing restarts one |
| `Drain.CoordinatorCoversWork` | crates/impossible-server/src/runtime.rs:574-589 | in every interleaving the coordinator's count covers the async counter, and draining means work is left |
| `Drain.DrainingOnlyShrinks` | crates/impossible-server/src/runtime.rs:773-792 | once draining is published no step admits work or moves the coordinator back |
| `Drain.DrainedForGood` | crates/impossible-server/src/runtime.rs:1480-1547 | drained stays drained in every continuation |
| `Drain.NoMissedWakeup` | crates/impossible-server/src/runtime.rs:1652-1697 | a waiter parked with nothing left can move, or a permit about to notify will let it |
| `Drain.DrainedIsNoticed` | crates/impossible-server/src/runtime.rs:1652-1697 | with nothing in use and time left, a waiter that can move decides that all is drained |
| `Drain.LateIsNoticed` | crates/impossible-server/src/runtime.rs:1652-1697 | once the deadline has passed, a waiter about to look decides that time is up |
| `Drain.ParkedWaiterLeaves` | crates/impossible-server/src/runtime.rs:1652-1697 | a waiter parked when the deadline passes can leave, also if it parked under an older deadline |
| `Drain.ServingAdmits` | crates/impossible-server/src/runtime.rs:773-792 | until shutdown is published, work is admitted and counted as soon as the lock is free |
| `Drain.OneTruthfulAnswer` | crates/impossible-server/src/runtime.rs:1480-1629 | all callers the shutdown task answers hear the same: true only with nothing in use, false only after the earliest requested deadline; the only other answer is false, for a caller without an executor or after that task died, and then nobody else hears from it |
| `Drain.TightestIsMinimum` | crates/impossible-server/src/runtime.rs:1497-1511 | the shared deadline is one of those asked for and none is earlier |
| `InstallGate.CommitGate.RequestCancel` | crates/impossible-models/src/install.rs:42-54 | cancels exactly if the commit has not begun, and reports which |
| `InstallGate.CommitGate.BeginCommit` | crates/impossible-models/src/install.rs:59-69 | succeeds exactly once and never after a cancellation |
| `InstallGate.StepKeepsInv` | crates/impossible-server/src/runtime.rs:644-682 | gate, task, caller and shutdown keep the protocol's invariant |
| `InstallGate.ShuttingDownIsTruthful` | crates/impossible-server/src/runtime.rs:1167-1205 | a caller told of shutdown: nothing was or will be promoted, and the installer, if it ran, has been told to stop |
| `InstallGate.LeavingStopsTheInstaller` | crates/impossible-server/src/runtime.rs:676-682 | a caller that goes away stops its installer for good unless the commit has begun |
| `InstallGate.NothingStartsAfterForce` | crates/impossible-server/src/runtime.rs:1167-1205 | no installer starts once shutdown is forced |
| `InstallGate.ShutdownStopsUncommitted` | crates/impossible-server/src/runtime.rs:644-658 | once shutdown has asked, an uncommitted installation never promotes |
| `InstallGate.CrossedRunsToItsEnd` | crates/impossible-server/src/runtime.rs:644-682 | once crossed the installer is never aborted, promotes at most once, and no caller is told of shutdown |
| `InstallGate.CallerHearsTheInstaller` | crates/impossible-server/src/runtime.rs:1632-1650 | any other answer is the installer's own: success exactly if it promoted the model or found it installed, and after a promotion exactly if that succeeded |
| `InstallGate.NoCallerIsStranded` | crates/impossible-server/src/runtime.rs:1632-1650 | a waiting caller's installer is alive or has left a result to receive |
| `InstallGate.ValidateInstallSize` | crates/impossible-models/src/install.rs:326-351 | accepts exactly the manifests within all three limits and names the first one broken |
| `Admission.AdmissionIsExact` | crates/impossible-server/src/runtime.rs:591-619 | in every interleaving the counter is the number of live permits and at most the depth, leases are conserved, channel plus backlog fit the depth |
| `Admission.ChannelNeverFull` | crates/impossible-server/src/runtime.rs:1388-1394 | the queue-full answer of `try_send` is unreachable |
| `Admission.RefusedOnlyWhenFull` | crates/impossible-server/src/runtime.rs:598-605 | admission is refused exactly when the depth is really used |
| `Admission.OneStageAtATime` | crates/impossible-server/src/runtime.rs:1250-1400 | a step takes a request to its next stage or ends it for a named reason, and touches no other request |
| `Admission.NeverUnderflows` | crates/impossible-server/src/runtime.rs:615-619 | no owner ever finds its counter at zero |
| `Admission.EverythingIsReturned` | crates/impossible-server/src/runtime.rs:1745-1790 | once every request is let go of, abandoned preflights included, both counters are zero |
| `ManifestRules.PartsArePlain` | crates/impossible-models/src/manifest.rs:471-549 | validated names hold only letters, digits, `-`, `_`, `.` and separators |
| `ManifestRules.ValidTextHasNoZero` | crates/impossible-models/src/manifest.rs:471-549 | validated texts never contain the separator byte |
| `ManifestRules.ValidateArtifacts` | crates/impossible-models/src/manifest.rs:312-365 | the one-pass check accepts exactly the lists whose artifacts are valid alone and pairwise compatible |
| `ManifestRules.PathsAreDistinct` | crates/impossible-models/src/manifest.rs:312-365 | accepted lists never repeat a path |
| `ManifestRules.AncestorIsPrefix` | crates/impossible-models/src/manifest.rs:524-528 | one path is an ancestor of another exactly if its components are a proper prefix of the other's |
| `ManifestRules.PathsStayInside` | crates/impossible-models/src/manifest.rs:471-522 | an accepted path is relative and no component is empty, `.` or `..` |
| `ArtifactIdentity.EntryOrder` | crates/impossible-models/src/store.rs:379-384 | the comparator is a total order without ties |
| `ArtifactIdentity.FeedDigest` | crates/impossible-models/src/store.rs:377-398 | the loop feeds the digest exactly the encoding |
| `ArtifactIdentity.ParseUndoesEncode` | crates/impossible-models/src/store.rs:385-396 | a parser recovers id, revision and sorted artifacts |
| `ArtifactIdentity.LittleEndianAt` | crates/impossible-models/src/store.rs:394-396 | sizes are fed least significant byte first |
| `ArtifactIdentity.SameStreamIffSameIdentity` | crates/impossible-models/src/store.rs:377-398 | equal streams exactly if equal id, revision and set of (path, digest, size) |
| `ArtifactIdentity.OrderIsIrrelevant` | crates/impossible-models/src/store.rs:378-384 | declared order changes nothing, validated or not |
| `ArtifactIdentity.RepetitionChangesTheStream` | crates/impossible-models/src/store.rs:385-396 | concrete case: without distinct paths the equivalence fails, and validation rejects it |
| `LineFraming.JoinLines` | crates/impossible-server/src/mcp.rs:789-829 | splitting loses nothing |
| `LineFraming.LinesOfJoin` | crates/impossible-server/src/mcp.rs:789-829 | splitting invents nothing |
| `LineFraming.OnlyReading` | crates/impossible-server/src/mcp.rs:789-829 | the split is the only reading of the stream as newline-free lines whose last one is empty only if terminated |
| `LineFraming.MessagesSurvive` | crates/impossible-server/src/mcp.rs:752-829 | each message a peer sends comes out unchanged, whichever line ending it uses, unless its line is too long |
| `LineFraming.LineReader.Absorb` | crates/impossible-server/src/mcp.rs:797-819 | one buffer is taken up to its first newline, never holding more than the limit |
| `LineFraming.LineReader.ReadCappedLine` | crates/impossible-server/src/mcp.rs:789-829 | takes exactly the first line off the stream: oversized exactly if longer than the limit, otherwise its bytes without a trailing carriage return |
| `LineFraming.RunStdio` | crates/impossible-server/src/mcp.rs:752-779 | for every buffering, the events are those of the whole stream, or a prefix if stopped early |

## Left out

- HTTP, gRPC, command line and process hosting: routing and wire plumbing with shallow branches.
- ONNX Runtime sessions, tokenizers, protobuf decoding, SHA-256 and JSON: functions or decoded values given as parameters; no injectivity of a hash or of the JSON-based semantic fingerprint is claimed.
- Symlink, reparse-point and canonicalization checks, open-at chains and share modes: operating-system behaviour; paths are names only, and creating the cache's own directories is not modelled.
- Downloads, redirects and origin policy: a network client; filling the staging tree is one change that may fail.
- Credentials, telemetry, metrics, doctor, configuration parsing: single-branch or formatting code; `BatchPolicy.Valid` is the precondition configuration has to meet.
- `health.rs` beyond the per-model map: lifecycle transitions and readiness text would only add easy members.
- Lock poisoning, a runtime dropped while its shutdown task runs, and counter wrap-around or saturation at machine limits: counters are unbounded unless the source checks them.
- f32 rounding, finiteness and the square root of normalization: pooling is over an abstract scalar with exact arithmetic, and normalization is a function of the pooled vector.
- Weak references of dropped cancellation tokens, composites as constituents of `any`, and de-duplication of equal wakers: each token stays alive and each poll brings its own waker.
- The global queue gauge and the pool's own worker threads: gauges feed metrics only; a pool job is accepted, refused or lost.
- InstallGate.CallerHearsTheInstaller: covers the manifest installer, which never reports shutdown itself; a custom operation could.
- application.rs: thin composition of the components above.
