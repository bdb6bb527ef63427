# datasluice: a verified model of its stateful protocols

datasluice moves open-data resources from catalogs to local or object storage. This project models the
parts of it that keep state across concurrency, crashes and resumption, and proves what they keep. Each
protocol is a machine over explicit steps: a durable write, a critical section, or a choice of the
environment (a crash, a completion order, a clock reading, another process). Theorems quantify over every
sequence of steps. Beside them stand classes with the fields the program keeps, whose methods are written as
the program writes them. Those of the sync session, the lock registry, the bulk executor, the capability cache
and the breaker registry are proved to be steps of their machines; those of the state store and the content
cache are proved against the map of files or entries they stand for.

`dafny verify dfyconfig.toml` checks the whole project.

## What is modelled

**Checkpointed sync** (`RowGroups`, `SyncProtocol`, `SyncDecisions`, `SyncSafety`, `SyncExactness`, `SyncLoss`,
`SyncLimits`, `SyncSession`, `SyncProcesses`, `SyncUnlocked`). A Parquet source is a sequence of row groups,
some of them empty. A pass stages one shard per non-empty group, commits a cursor after each, publishes one
artifact, commits a completed record and removes the shards. Every durable write is a step and a crash may fall
between any two. When a pass answers without reading, where it starts and what it reports is stated of every
world. With the source fixed, whatever the passes, modes, destinations and crashes, every published file is all
row groups in order and every success left it in place. With changing sources the recorded artifact is still one
whole version under a stated discipline of the environment; a run is exhibited for each condition of that
discipline, and the exact condition for a recorded artifact to be the recorded version, in terms of the row
groups as they were read, is proved of every run, as is the one for a durable checkpoint to have its shards.
Several processes over one state key, each commit a conditional put, are composed with this: under the key lock
any interleaving is one run of the protocol and no commit conflicts; without any lock commits may be refused or
overwrite one another, but what is published is still the whole source.

**State store** (`LockTable`, `LockSafety`, `LockRegistry`, `VersionChain`, `StateCodec`, `StateStore`). The
global table of reference-counted locks under any interleaving of threads that enter, wait, nest, give up and
leave, with lock files that other processes take and drop; compare-and-swap on raw bytes where comparing and
publishing are separate steps tied together only by the lock; and the durable form of a state.

**Bulk executor** (`BulkMachine`, `BulkSafety`, `BulkResults`, `BulkSignals`, `BulkExecutor`). Bounded parallel
dispatch with arbitrary completion order, ordered emission, a checkpoint per settled item, cancellation,
budgets, a sink that may fail, a consumer that may leave, and resumption from the last checkpoint. The first
signal among a run's steps decides its stop and every flag it reports.

**Capability cache** (`CapabilityMachine`, `CapabilitySafety`, `CapabilityResults`, `CapabilityCache`).
Single-flight probing with leaders and followers, invalidation while a probe runs, expiry and a size limit.

**Content cache** (`ContentMachine`, `ContentSafety`, `ContentPresence`, `ContentLimits`, `ContentCache`). A
content-addressed directory with a metadata index used by many processes, each file operation and each
transaction a step; and, for operations run one at a time, its refinement of a plain map with expiry.

**Deadline, retry and circuit breaker** (`Retry`, `Breaker`, `BreakerRegistry`). Arithmetic bounds on attempts
and waits over a clock that any call may advance, and circuits that hold exactly what their call history says.

**Recursive algorithms** (`RecordProjection`, `ProjectionBounds`, `ProjectionFaithful`, `ProjectionEvidence`,
`ProjectionRedaction`, `ProjectionLoop`, `ImportClosure`, `InheritedMethods`). The budgeted projection of record
payloads, the import closure of a source tree, and the collection of inherited HTTP verbs over class graphs that
may be cyclic.

## How things stand for one another

- A SHA-256 digest is injective: a source version is represented by the source, a row group by its rows;
  `VersionChain` and `ContentMachine` take the hash as a function assumed injective.
- A published file is its rows. Arrow encoding, the final table's chunking and blob digests are not modelled.
- An SQLite transaction, an atomic rename and a section under an in-process lock are single steps.
- Generators are run by their consumer. Where a consumer may stop, a backend fail or a digest not be computed, a
  parameter says whether it does; where it does, when is a nondeterministic choice.
- Times are reals. Wall-clock budgets of the bulk executor are a nondeterministic stop signal.
- `Flight.number`, `Entry.origin`, `Entry.since` and the counters beside them name objects and order events
  for the proofs; the program has object identity instead.
- JSON text is represented by its value; `StateStore` takes encoding and parsing as functions of which only
  `loads(dumps(j)) == j` is assumed. Numbers that are not integers are not part of the state's JSON values.

## Where code and documentation differ

The model follows the code in each case.

- `resolve` documents one probe per fresh interval; it decides who leads by the flight table alone, so two
  callers that both missed can probe one after the other (`CapabilityResults.TwoProbesInOneInterval`). A probe
  starts beside an entry exactly when one was stored, and not dropped again, since its caller's lookup
  (`CapabilityResults.ProbeStartsBesideEntryIff`).
- `conditional_put` documents an absent and a present version; an empty file compares as absent
  (`VersionChain.ConflictIff`).
- The truncation marker is documented as marking dropped entries; a mapping whose names collide after
  redaction carries it although nothing was cut off (`ProjectionBounds.MarkerWithoutTruncation`; exactly when
  any mapping carries it is `ProjectionBounds.MarkerIff`).
- Re-entrancy is documented per key; it is recognised by how the store spells its location, so one thread
  using two spellings of a location waits for itself (`LockSafety.OtherSpellingWaitsForItself`).
- The check after publication protects the recorded completion of a checkpointed pass; a plain pass that
  re-reads a changed source has no such check (`SyncLimits.PlainPassMixes`). It records the version's rows
  exactly when each group, as it was read, held the rows the version has at that place
  (`SyncExactness.RecordedIsWholeIff`, `SyncExactness.PlainPassIsWholeIff`).
- A file that no row vouches for is documented as needing two consecutive sweeps to be removed, so that a
  payload in publication is not taken for an orphan. The two are counted for the name and not for the
  publication: a payload that already was a candidate, left by an earlier put that crashed, is lost to a single
  sweep between publication and commit (`ContentLimits.OneSweepLosesACandidate`), and one that was not is lost
  across two (`ContentLimits.StalledWriterLeavesDanglingRow`). A row has its file exactly when no removal followed
  the last publication of its payload (`ContentPresence.RowHasItsFileIff`), and what such a removal takes is in
  `ContentPresence.PublishedFileIsGoneIff`.
- Payload naming is documented as never replacing bytes a row references; rows from before it share the name
  space, so storing the text of such a row's key changes its answer (`ContentLimits.OlderRowAnswersWithItsKey`).
  A publication replaces referenced bytes exactly then (`ContentSafety.ReplacesIff`), and the row's answer tells
  whether it happened (`ContentSafety.LegacyHit`). Deleting the entry that holds such a text removes the older
  row's file unless a newer row shares it (`ContentCache.Directory.Delete`).

## Model

| member | source | states |
|---|---|---|
| RowGroups.ReadBatchesFromRowGroup | src/datasluice/data/readers/parquet.py:55-102 | negative and beyond-footer starts raise; otherwise exactly the non-empty groups from the start on, each with its physical index |
| RowGroups.BatchStream.IterBatchesWithCursors | src/datasluice/data/batch_stream.py:112-140 | each batch comes with the cursor counting it and pointing past its group; the first index that does not increase raises, and nothing else does |
| RowGroups.BatchStream.Close | src/datasluice/data/batch_stream.py:151-178 | the first call attempts every owned resource in order whatever fails and reports the first failure; a later call does nothing and reports none |
| RowGroups.ClosableIsExact | src/datasluice/data/batch_stream.py:151-178 | the resources attempted are exactly those that have a close, each once |
| RowGroups.FirstFailureIsFirst | src/datasluice/data/batch_stream.py:151-178 | a failure is reported exactly when closing some resource failed, and it is the earliest one |
| RowGroups.CursorCountsShards | src/datasluice/data/batch_stream.py:128-140 | at every emitted cursor the shard count is the number of non-empty groups before the physical position |
| RowGroups.ResumeAtCursor | src/datasluice/data/readers/parquet.py:97-100 | reading again from an emitted cursor yields exactly the pairs that followed it |
| RowGroups.ReopenAtCursor | src/datasluice/data/batch_stream.py:112-140 | reopening reader and stream at the k-th cursor yields exactly the rest of the first stream, without a monotonicity error |
| RowGroups.ShardRows | src/datasluice/sync/materialize.py:307-312 | shards that hold the non-empty groups in order concatenate to the rows of all groups |
| SyncSafety.StepKeepsSound | src/datasluice/sync/sync.py:201-307 | every step of a pass, crash included, keeps the checkpoint, the shards, the records and the running pass right for the version they belong to |
| SyncSafety.RecordedArtifactsAreWhole | src/datasluice/sync/sync.py:258-304 | a sufficient discipline of source changes: under it every recorded or reported artifact is one whole version that was seen, and the version recorded with it when one was |
| SyncSafety.FixedSourceIsDisciplined | src/datasluice/sync/sync.py:127-134 | a source that never changes meets that discipline, whatever the digests do |
| SyncSafety.PublishesWholeSource | src/datasluice/sync/materialize.py:248-296 | with the source fixed, after any passes and crashes every published file is all row groups in order and every success left it at its destination |
| SyncSafety.CheckpointsAreBacked | src/datasluice/sync/materialize.py:273-285 | if every pass resumes, a durable checkpoint (k, r) always has its shards 0..k-1, equal to the non-empty groups among the first r, and no pass raises |
| SyncSafety.StepKeepsBacked | src/datasluice/sync/materialize.py:358-366 | no step of a resuming pass removes a shard the durable checkpoint names |
| SyncDecisions.BeginAnswersIff | src/datasluice/sync/sync.py:60-124 | in any world: a pass answers at once with "resumed" exactly when it resumes over an intact recorded artifact, with "skipped, unchanged" exactly when it does not resume, the recorded artifact is intact and the digest could be computed and is that of the recorded version, and in no other way; it changes nothing on disk |
| SyncDecisions.OpenStartsAt | src/datasluice/sync/sync.py:201-257 | in any world: a pass that goes on reads plainly exactly over an intact recorded artifact; otherwise it goes through shards, from a checkpoint of its destination that no digest contradicts when it resumes, and from the start when it does not or there is none |
| SyncDecisions.SuccessesAre | src/datasluice/sync/sync.py:258-307 | over every run: any other success is what the pass laid end to end, called resumed exactly when it went on from a checkpoint, or the recorded artifact when a plain pass read exactly its rows again |
| SyncExactness.RecordedIsWholeIff | src/datasluice/sync/sync.py:218-304 | on every run, disciplined or not: a completion recorded with a version holds that version's rows if and only if each batch of its pass, as the source held it when it was read, is the rows the version has at its place and together they reach its end |
| SyncExactness.ShardProvenance | src/datasluice/sync/materialize.py:276-288 | on every run each shard on disk lies there from the beginning or is the row group read last before its last write, as the source held it then |
| SyncExactness.CheckpointedPassIsWholeIff | src/datasluice/sync/sync.py:228-304 | a checkpointed pass whose shards have the sizes of the version's non-empty groups records the version's rows if and only if the group read for each shard was the version's |
| SyncExactness.PlainPassIsWholeIff | src/datasluice/sync/sync.py:218-227 | a plain pass whose groups kept their sizes records the version's rows if and only if every group, when it was read, was the version's group |
| SyncExactness.MovedRowsStayWhole | src/datasluice/sync/sync.py:218-227 | a run: with sizes changing, no group read is the version's and the recorded rows still are |
| SyncSession.Session.RequireCheckpointShards | src/datasluice/sync/materialize.py:299-304 | accepts exactly when shards 0..count-1 all exist |
| SyncSession.Session.CheckpointBatches | src/datasluice/sync/materialize.py:307-312 | the rows of shards 0..count-1 in order |
| SyncSession.Session.PublishBatchShard | src/datasluice/sync/materialize.py:358-366 | an old shard of that index goes first, then the new one is in place and no other shard has changed |
| SyncSession.Session.PersistBatchState | src/datasluice/sync/sync.py:184-198 | the committed checkpoint is the cursor after the shard just written |
| SyncSession.Session.StageNext | src/datasluice/sync/materialize.py:276-288 | one physical group: staged and committed when it has rows, skipped when it has none |
| SyncSession.Session.MaterializeCheckpointed | src/datasluice/sync/materialize.py:248-296 | stages every remaining group, then publishes the shards' rows at its destination and changes no other file, or raises over a missing shard and changes none |
| SyncSession.Session.CleanupCheckpointed | src/datasluice/sync/materialize.py:315-330 | removal may fail part way, and only shards of that destination go; when it does not fail none of them is left |
| SyncSession.Session.SyncResource | src/datasluice/sync/sync.py:310-415 | one pass: it answers at once with what is recorded exactly when that is intact and the pass resumes or the digest says the source is the recorded version; over an intact artifact of another version it reads plainly, and reports the artifact unchanged exactly when the rows are; otherwise it goes through shards and records what it published, as resumed exactly when it resumed a usable checkpoint. A success leaves all row groups at the destination, and a resuming pass after resuming passes always succeeds |
| SyncSession.ResumedEqualsUncut | src/datasluice/sync/sync.py:201-257 | any crashed resuming passes followed by one that completes end with the artifact and the file of one uncut pass |
| SyncLimits.BlindResumptionMixes | src/datasluice/sync/sync.py:127-134 | a run: without a digest a changed source is resumed and the recorded artifact mixes two versions |
| SyncLimits.UndatedCheckpointMixes | src/datasluice/sync/sync.py:99-134 | a run: a checkpoint written without a digest is resumed over a changed source and the mixture is recorded under the new version |
| SyncLimits.ChangeWhileBlindMixes | src/datasluice/sync/sync.py:258-268 | a run: a change during a pass without a digest is not noticed and the recorded artifact mixes two versions |
| SyncLimits.UnreadablePostCheckMixes | src/datasluice/sync/sync.py:258-268 | a run: a digest that fails after publication lets a mixed artifact be recorded under a version |
| SyncLimits.ChangingBackMixes | src/datasluice/sync/sync.py:258-268 | a run: a source that changes and changes back leaves a shard of the other version in the recorded artifact |
| SyncLimits.PlainPassMixes | src/datasluice/sync/sync.py:218-227 | a run: a change during a plain pass is recorded as the completion of a version it does not hold |
| SyncLimits.RestartingCanLoseAShard | src/datasluice/sync/materialize.py:358-366 | a run: a restarting pass that crashes between removing and writing a shard leaves a checkpoint naming a missing one |
| SyncLoss.CheckpointLacksShardIff | src/datasluice/sync/materialize.py:315-366 | on every run a durable checkpoint lacks a shard it counts exactly when a step cleared it for a new one, or removed it after its pass found the source changed, and none wrote it since |
| SyncLoss.FixedSourceLacksShardIff | src/datasluice/sync/materialize.py:358-366 | with the source fixed, between passes: exactly when a pass was cut off right after clearing it and none wrote it since |
| SyncProcesses.LockedRunIsOneRun | src/datasluice/sync/sync.py:353-371 | under the key lock every interleaving of passes of any number of processes is one run of the protocol made of their own steps, and no conditional put ever conflicts |
| SyncProcesses.LockedProcessesPublishWholeSource | src/datasluice/sync/sync.py:353-371 | so with the source fixed every published file is all row groups in order, every success left it in place, and no pass raises if all resume |
| SyncUnlocked.UnlockedProcessesPublishWholeSource | src/datasluice/sync/sync.py:38-44 | where no lock keeps passes apart (a store without compare-and-swap, whose puts are unconditional, or in-process storage spelled in two ways, where a comparison does not protect its write): passes that interleave freely, their commits refused or overwriting one another, still publish, report and record nothing but all row groups in order |
| SyncUnlocked.WithoutLockAPassConflicts | src/datasluice/sync/sync.py:184-198 | a run: without the lock the second of two passes over a store that compares finds the first one's checkpoint and its commit is refused |
| SyncUnlocked.CommitRefusedIff | src/datasluice/sync/sync.py:184-198 | on every run a comparing commit is refused exactly when another was made since its pass last read or wrote the record and the last of them left another record |
| LockSafety.RunKeepsInv | src/datasluice/sync/state_store.py:197-243 | every interleaving keeps the tables exact, each lock's depth the uses that hold it, and each lock file with one use |
| LockSafety.OneThreadInside | src/datasluice/sync/state_store.py:200-209 | at most one thread is inside a scope |
| LockSafety.OneThreadPerFile | src/datasluice/sync/state_store.py:219-243 | for local storage at most one thread of all processes is inside a lock file, even across spellings of its location |
| LockSafety.NothingLeftBehind | src/datasluice/sync/state_store.py:210-217 | when nobody uses the locks both tables are empty, no lock is owned and no lock file is ours |
| LockSafety.EnteringShares | src/datasluice/sync/state_store.py:200-206 | entering raises the count to the outstanding uses and gives the lock every other use of the scope has, or a new one |
| LockSafety.WaitersKeepTheirLock | src/datasluice/sync/state_store.py:200-217 | the lock object a use was given stays the scope's lock until the use ends; the count is the outstanding uses |
| LockSafety.NestingNeverBlocks | src/datasluice/sync/state_store.py:219-226 | a thread inside a scope enters it again without waiting and without touching the lock file |
| LockSafety.OtherSpellingWaitsForItself | src/datasluice/sync/state_store.py:171-183 | entering the same local file from inside blocks exactly when the scope is spelled differently |
| LockRegistry.Registry.FindOrCreate | src/datasluice/sync/state_store.py:200-205 | the scope's lock object, new only if the table had none; no other entry changes |
| LockRegistry.Registry.Register | src/datasluice/sync/state_store.py:200-206 | the guarded section on entry is the machine's step |
| LockRegistry.Registry.Unregister | src/datasluice/sync/state_store.py:210-217 | the guarded section on exit keeps the scope in both tables exactly while uses are outstanding |
| LockRegistry.Registry.EnterFileLock | src/datasluice/sync/state_store.py:219-236 | takes the lock file exactly when storage is local and the thread does not hold it already |
| LockRegistry.Registry.ExitFileLock | src/datasluice/sync/state_store.py:235-243 | restores what the thread held before and lets the file go if this use took it |
| VersionChain.StepKeepsInv | src/datasluice/sync/state_store.py:397-409 | while a writer holds the lock what it compared still stands when it publishes |
| VersionChain.CommitsFormAChain | src/datasluice/sync/state_store.py:398-409 | in any interleaving of writers, whatever versions they expect, each commit replaced the one before it, and exactly the bytes it expected |
| VersionChain.SameVersionWinsOnce | src/datasluice/sync/state_store.py:362-409 | two commits expected the same bytes if and only if the commit before the later one published those bytes again |
| VersionChain.ForeignCommitsAreDetected | src/datasluice/sync/sync.py:184-198 | going on from the version last read or returned commits only if nothing was committed since, or the last commit left the same bytes |
| VersionChain.ConflictIff | src/datasluice/sync/state_store.py:400-405 | the comparison succeeds exactly when the version on disk is the one expected, or one is absent and the other empty |
| VersionChain.WithoutLockAnUpdateIsLost | src/datasluice/sync/state_store.py:391-395 | a run: where the lock does not reach, two writers that read the same version both commit |
| VersionChain.UpdateIsLostIff | src/datasluice/sync/state_store.py:397-409 | on every run, locked or not: a commit replaces other bytes than it expected exactly when one was made between its comparison and its publication and the last of them left others |
| StateCodec.RoundTrip | src/datasluice/sync/state_store.py:459-483 | what may be written is read back unchanged |
| StateCodec.ReadableIffWritable | src/datasluice/sync/state_store.py:282-303 | the states that some envelope decodes to are exactly those that may be written |
| StateCodec.WritableIff | src/datasluice/sync/state_store.py:491-615 | a state may be written exactly when its cursor is empty or one accepted watermark under its key, it has no partitions, its timestamp is absent or an accepted text of 1 to 128 characters, and the rest is nothing, a checkpoint of the six fields, or a completed artifact with or without a source version |
| StateCodec.DecodesIff | src/datasluice/sync/state_store.py:282-303 | an envelope decodes to a state exactly when it has the two keys and schema 1, its fields or their defaults hold the state, and the state may be written |
| StateCodec.EncodingIsInjective | src/datasluice/sync/state_store.py:459-483 | writable states have equal encodings only if they are equal |
| StateCodec.StoreAndPassAgree | src/datasluice/sync/state_store.py:564-615 | the store's checkpoint rules and the pass's own decoder accept the same checkpoints |
| StateCodec.CheckpointSurvives | src/datasluice/sync/sync.py:450-507 | a checkpoint may be written exactly when its digests are digests, and is then decoded with the same fields |
| StateStore.FileStateStore.GetWithVersion | src/datasluice/sync/state_store.py:265-280 | state and version come from the same bytes; absent and undecodable files are told apart |
| StateStore.FileStateStore.ConditionalPut | src/datasluice/sync/state_store.py:396-409 | it succeeds exactly when the state is valid, the expected bytes were there and the backend does not fail; then the returned bytes, which mean the given state, are there; each failure is told apart and leaves the files alone |
| StateStore.FileStateStore.PutInTurn | src/datasluice/sync/sync.py:184-198 | writes threaded through returned versions get through only over what was last known, whatever others write in between, and stop at the first state that is invalid, meets other bytes, or meets a failing backend |
| StateStore.FileStateStore.Delete | src/datasluice/sync/state_store.py:411-424 | succeeds exactly when the backend does not fail, an absent key included, and leaves the key absent; no other key changes |
| BulkSafety.RunKeepsInv | src/datasluice/runtime/bulk.py:508-537 | every run keeps the partition, the bounds, ordered emission and the checkpoints |
| BulkSafety.BuiltCheckpoint | src/datasluice/domain/catalog/receipts.py:253-269 | every checkpoint built lists exactly the settled receipts with ascending indices inside the plan |
| BulkResults.PlanIsPartitioned | src/datasluice/runtime/bulk.py:106-122 | every index of the plan is in exactly one of settled, pending and in flight, and in flight is within the bound |
| BulkResults.DispatchFollowsThePlan | src/datasluice/runtime/bulk.py:367-383 | dispatch takes the missing indices in order; settled plus in flight is the input plus the dispatches |
| BulkResults.UnstoppedRunIsSequential | src/datasluice/runtime/bulk.py:508-537 | for every parallelism and completion order an unstopped run emits what running the items one by one emits, in order, and counts all of them |
| BulkResults.UnstoppedRunAnswers | src/datasluice/runtime/bulk.py:508-537 | the same for a run that starts from a checkpoint |
| BulkResults.SummaryCounts | src/datasluice/runtime/bulk.py:208-257 | outcome counts stay within the settled count; settled and outstanding add up to the plan |
| BulkResults.SummaryIsExact | src/datasluice/runtime/bulk.py:208-257 | the terminal summary counts the settled receipts by outcome and names the stop that ended the run |
| BulkResults.StopFreezesDispatch | src/datasluice/runtime/bulk.py:328-375 | a stop reason once set never changes and nothing is dispatched after it |
| BulkResults.WaitsOnlyWhenFull | src/datasluice/runtime/bulk.py:451-463 | the executor waits or leaves its loop only when the plan is used up, the bound is reached, or a stop is set |
| BulkSignals.StopIsFirstSignal | src/datasluice/runtime/bulk.py:180-200 | over every run, read off its steps: the stop is a cancellation exactly when the first signal that counts was one, the budget exactly when that was (which counts only while items are left to dispatch), and none exactly when there was no signal |
| BulkSignals.ItemBudgetIff | src/datasluice/runtime/bulk.py:377-383 | over every run an item budget is recorded exactly when some settled item overran its own |
| BulkSignals.SummaryFlags | src/datasluice/runtime/bulk.py:208-257 | the terminal summary says cancelled exactly when the first signal was a cancellation, and budget exhausted exactly when it was the budget or some item overran |
| BulkSignals.CheckpointFlag | src/datasluice/runtime/bulk.py:385-396 | each checkpoint a run adds says cancelled exactly when closing the stream made it or the first signal so far was a cancellation |
| BulkResults.StepsDescend | src/datasluice/runtime/bulk.py:520-530 | every step lowers a natural number, the steps ahead |
| BulkResults.RunsAreShort | src/datasluice/runtime/bulk.py:508-537 | no run over a plan of n items takes more than 4 n + 5 steps |
| BulkResults.NeverStuck | src/datasluice/runtime/bulk.py:508-537 | until the run has ended some step is enabled |
| BulkResults.EmittedAfterAccepted | src/datasluice/runtime/bulk.py:465-480 | with checkpoints required every receipt handed out is already in an accepted checkpoint |
| BulkResults.StopLeavesCheckpoint | src/datasluice/runtime/bulk.py:398-403 | after a stop the last checkpoint holds all that settled and the right cancellation flag |
| BulkResults.FinishingIsRecorded | src/datasluice/runtime/bulk.py:398-403 | after the loop, with checkpoints required, the sink's last checkpoint holds every settled receipt under the stop it was built with, if it holds any checkpoint |
| BulkResults.CloseLeavesCheckpoint | src/datasluice/runtime/bulk.py:482-498 | closing the stream settles what is in flight and leaves it all in a checkpoint marked cancelled |
| BulkResults.ResumptionIsValid | src/datasluice/runtime/bulk.py:133-167 | the last checkpoint is accepted when the plan is resumed, if every item answers for itself |
| BulkResults.ResumeRedispatchesFew | src/datasluice/runtime/bulk.py:106-116 | with checkpoints required and items answering for themselves: after an interruption anywhere no item with a durable receipt is dispatched again, and at most the bound are dispatched twice, none after a graceful end |
| BulkResults.ResumedEqualsUninterrupted | src/datasluice/runtime/bulk.py:106-116 | an interrupted run, resumed and left to finish, emits and settles what one uninterrupted run does |
| BulkExecutor.ValidatePlan | src/datasluice/runtime/bulk.py:133-167 | accepts exactly the plans without duplicates whose checkpoint, if any, is of that plan and names its items; a duplicate comes before a foreign checkpoint, that before the first receipt that names another item |
| BulkExecutor.Executor.OrderedReceipts | src/datasluice/runtime/bulk.py:98-103 | hands out exactly the receipts that have become contiguous and moves to the first gap |
| BulkExecutor.Executor.NextDispatchable | src/datasluice/runtime/bulk.py:367-375 | the first pending index unless the bound, the plan or a stop forbids it |
| BulkExecutor.Executor.DispatchAvailable | src/datasluice/runtime/bulk.py:451-463 | dispatches until the plan is used up, the bound is reached or a stop is set |
| BulkExecutor.Executor.RecordCompleted | src/datasluice/runtime/bulk.py:377-383 | adds the receipt and remembers an overrun; a stop once set stays, else a cancellation stops, and so does a spent budget while items are left to dispatch |
| BulkExecutor.Executor.RecordSyncResult | src/datasluice/runtime/bulk.py:465-480 | adds the receipt as `RecordCompleted` does, and when required persists everything settled, marked cancelled exactly when the stop is a cancellation |
| BulkExecutor.Executor.SettleBatch | src/datasluice/runtime/bulk.py:526-530 | the finished futures of one wait, in any order, each released as soon as it is contiguous |
| BulkExecutor.Executor.Drain | src/datasluice/runtime/bulk.py:482-498 | everything in flight settles and one cancelled checkpoint is offered |
| BulkExecutor.Executor.FinishStopState | src/datasluice/runtime/bulk.py:398-403 | a last cancellation is the stop if there was none, a spent budget is not; with checkpoints required a stop is unrecorded exactly when the sink is empty or its last checkpoint was built under another stop; otherwise that checkpoint holds every settled receipt with the right cancellation flag |
| BulkExecutor.Executor.Stream | src/datasluice/runtime/bulk.py:508-537 | ends, with its summary if the consumer listens and the sink accepts; the summary's flags are the first signal of its steps and the items' overruns; unstopped, as it is when nobody signals, it emits the whole plan in order, as running the items one by one would; with checkpoints required it emits only durable receipts and, unless the sink failed, leaves all that settled durable |
| CapabilitySafety.RunKeepsInv | src/datasluice/runtime/capability.py:144-229 | every interleaving keeps flights and entries sound |
| CapabilitySafety.StoredFacts | src/datasluice/runtime/capability.py:363-375 | storing replaces the key's entry within 1024 entries; others go only when it is full, long expired ones first, else the oldest insertion |
| CapabilityResults.RegisteredIffPending | src/datasluice/runtime/capability.py:144-229 | a synchronous flight is registered exactly when its event is unset and it is uncancelled; otherwise it has a profile or an error |
| CapabilityResults.SingleFlight | src/datasluice/runtime/capability.py:144-155 | at most one running uncancelled flight of a kind per key |
| CapabilityResults.NobodyIsForgotten | src/datasluice/runtime/capability.py:183-221 | an unset event has a running leader in the table, whose end sets it |
| CapabilityResults.FollowersGetAnAnswer | src/datasluice/runtime/capability.py:157-164 | a released follower raises or returns; "completed without an effective profile" cannot happen |
| CapabilityResults.AnswersStay | src/datasluice/runtime/capability.py:157-221 | later steps never change a profile that was given, nor turn an error into a success |
| CapabilityResults.NoStaleEntry | src/datasluice/runtime/capability.py:199-221 | no entry of a probe comes from a flight registered before the latest invalidation of everything or of its operation |
| CapabilityResults.EverythingIsForgotten | src/datasluice/runtime/capability.py:387-397 | invalidating everything leaves no entry and empty tables; every registered flight is cancelled, a synchronous one released with the error; no other flight changes |
| CapabilityResults.OperationIsForgotten | src/datasluice/runtime/capability.py:399-411 | invalidating one operation drops exactly its entries and table rows and cancels exactly its registered flights |
| CapabilityResults.InvalidationReleases | src/datasluice/runtime/capability.py:387-411 | every flight whose operation or everything is invalidated leaves its table and its waiting followers get the invalidation error |
| CapabilityResults.LateLeaderIsHarmless | src/datasluice/runtime/capability.py:209-229 | a cancelled leader that ends late changes neither entries nor tables nor any other flight |
| CapabilityResults.LookupIsExact | src/datasluice/runtime/capability.py:460-467 | a lookup answers with the key's unexpired entry and drops only that key's expired one |
| CapabilityResults.CacheIsBounded | src/datasluice/runtime/capability.py:363-375 | never more than 1024 entries, never two for a key |
| CapabilityResults.InsertionOrderStays | src/datasluice/runtime/capability.py:363-375 | no step reorders the entries it leaves and what it stores comes last, so the first is the oldest insertion |
| CapabilityResults.ProbeStartsBesideEntryIff | src/datasluice/runtime/capability.py:127-155 | over any run: the probe led by a caller that missed starts beside an entry of its key, fresh or not, exactly when a step since its lookup stored one that no later step dropped, and that entry is fresh or not |
| CapabilityResults.FoundAfterStep | src/datasluice/runtime/capability.py:363-467 | what every step leaves of a key's entry: the one it stored, none if it dropped it by expiry, eviction or invalidation, else the one before |
| CapabilityResults.TwoProbesInOneInterval | src/datasluice/runtime/capability.py:127-142 | a run: a second probe starts while a fresh entry is cached |
| CapabilityCache.Cache.StoreEntry | src/datasluice/runtime/capability.py:363-375 | the entry list becomes what storing means |
| CapabilityCache.Cache.FreshEntry | src/datasluice/runtime/capability.py:460-467 | the unexpired entry, dropping an expired one |
| CapabilityCache.Cache.RecordProfile | src/datasluice/runtime/capability.py:327-361 | the recorded profile is stored as the key's newest entry and no flight changes |
| CapabilityCache.Cache.JoinOrLead | src/datasluice/runtime/capability.py:144-155 | the registered flight object, or a fresh one that this caller leads |
| CapabilityCache.Cache.CompleteSyncLeader | src/datasluice/runtime/capability.py:199-221 | stores and publishes, or for a cancelled flight raises the invalidation error and stores nothing |
| CapabilityCache.Cache.FailSyncLeader | src/datasluice/runtime/capability.py:183-197 | publishes the failure, sets the event and leaves the entries |
| CapabilityCache.Cache.DiscardSyncFlight | src/datasluice/runtime/capability.py:223-229 | removes the key only while this very flight owns it |
| CapabilityCache.Cache.Forget | src/datasluice/runtime/capability.py:377-411 | for everything no entry and no table row is left, for one operation exactly the others' are; exactly the flight objects that leave the table are cancelled and released |
| ContentSafety.RunKeepsInv | src/datasluice/io/content_cache.py:102-277 | every interleaving with crashes keeps files, rows and tasks in flight consistent |
| ContentSafety.HitIsItsOwnPut | src/datasluice/io/content_cache.py:102-131 | a hit is exactly the payload of the put of that key which committed the row read, within its time to live |
| ContentSafety.LegacyHit | src/datasluice/io/content_cache.py:123-129 | a hit on a row from before payload naming is the file found at first exactly when no payload equal to its key's text was published since, and that text exactly when one was |
| ContentSafety.ReplacesIff | src/datasluice/io/content_cache.py:162-172 | a publication changes the bytes a row points at exactly when the row is from before payload naming, the payload is its key's text, and its older bytes are still in place |
| ContentPresence.RowHasItsFileIff | src/datasluice/io/content_cache.py:152-192 | on every run a row that names its payload has its file exactly when no removal of the payload followed its last publication |
| ContentPresence.LostIff | src/datasluice/io/content_cache.py:194-277 | the same by position: some removal comes after every publication |
| ContentPresence.PublishedFileIsGoneIff | src/datasluice/io/content_cache.py:239-277 | what a writer published is gone later exactly when it was removed since and not published again; unless it was a candidate or being removed at publication, that takes a deletion of the payload or two sweeps of one instance since, each of which found it listed and unvouched |
| ContentPresence.SweepRemovesOnlyCandidates | src/datasluice/io/content_cache.py:253-275 | a sweep leaves to remove exactly what it found listed and unvouched and what already was a candidate of its instance |
| ContentPresence.RemovalsHaveTheirCause | src/datasluice/io/content_cache.py:194-277 | every file removal follows a deletion that unlinked the file and then found no row naming it, or two sweeps of one instance that found it listed and unvouched |
| ContentPresence.DeletionSparesNamed | src/datasluice/io/content_cache.py:194-214 | a deletion whose payload some row still names ends there and touches no file; otherwise it goes on to the file |
| ContentPresence.DanglingRowIsAMiss | src/datasluice/io/content_cache.py:110-130 | a read that selected a row whose file is gone answers with its payload exactly when that was published again before the read and not removed after; otherwise it misses |
| ContentLimits.StalledWriterLeavesDanglingRow | src/datasluice/io/content_cache.py:239-277 | a run: a writer stalled across two sweeps commits a row whose file is gone |
| ContentLimits.OneSweepLosesACandidate | src/datasluice/io/content_cache.py:239-277 | a run: a payload that already was a candidate is lost to one sweep between its publication and its commit |
| ContentLimits.OlderRowAnswersWithItsKey | src/datasluice/io/content_cache.py:162-179 | a run: storing the text of an older row's key makes that row answer with it |
| ContentCache.Directory.Write | src/datasluice/io/content_cache.py:152-192 | it succeeds exactly when neither step fails and then stores the pair; failure at either leaves every entry as it was; an older row's answer changes exactly when its key's text was published |
| ContentCache.Directory.DropExpired | src/datasluice/io/content_cache.py:253-263 | the sweep's transaction forgets only what no lookup would answer |
| ContentCache.Directory.Delete | src/datasluice/io/content_cache.py:194-214 | exactly that key goes, and its file exactly when no row names it; an older row loses its file exactly when the deleted payload was its key's text and no newer row shares it |
| ContentCache.Cache.MaybeSweep | src/datasluice/io/content_cache.py:239-277 | not within 60 seconds of the last; when nothing fails it leaves exactly the rows neither expired nor stale for 300 seconds, the files but for those unvouched now and at the last sweep, and as candidates the files unvouched now; wherever it fails it changes no answer and removes only files that were candidates before |
| ContentCache.Cache.Get | src/datasluice/io/content_cache.py:102-131 | run one at a time, exactly what the plain map held before the call and has not expired, and for a row from before payload naming the file of its name |
| ContentCache.Cache.Put | src/datasluice/io/content_cache.py:133-192 | run one at a time, the plain map's update, or no change of any entry exactly when a step fails; older rows change exactly as publication says |
| Retry.DeadlineMonitor.AssertDispatchable | src/datasluice/runtime/resilience.py:44-51 | raises exactly when no time is left |
| Retry.DeadlineMonitor.CheckWait | src/datasluice/runtime/resilience.py:53-61 | raises exactly when the wait does not fit what is left |
| Retry.DecideMeans | src/datasluice/domain/catalog/resilience.py:60-88 | the decision with the statuses and the wait written out: malformed responses raise, those outcomes repeat, everything else declines |
| Retry.RetryLoop.SettleAttempt | src/datasluice/runtime/resilience.py:105-137 | another attempt follows a repeatable request below the attempt limit exactly when there was no response or its status is 408, 425, 429, 500, 502, 503 or 504, after the wait it asks for or else the doubling one, if that fits the budget and the deadline; otherwise the outcome is the caller's, and a malformed response or a wait past the deadline raises |
| Retry.RetryLoop.Run | src/datasluice/runtime/resilience.py:139-153 | sends strictly inside the deadline, and every wait follows an outcome that asks for another attempt and is the one it asks for, or the doubling one; it ends with a response or failure exactly when the last outcome is none of these, with the error of a wait only when that wait does not fit; waits sum to at most the deadline, one send if not repeatable; on one budget without Retry-After, k sends mean that 2^(k-1) - 1 is less than it and that no wait followed by a send was clipped; the fall-through is unreachable |
| Retry.SumIsBackoff | src/datasluice/domain/catalog/resilience.py:79-88 | waits nobody asked for are the doubling ones, clipped to the budget |
| Retry.RetryLoop.BudgetBoundsAttempts | src/datasluice/domain/catalog/resilience.py:79-88 | of every ended run on one budget in which nobody asked to wait: the sends are logarithmic in the budget and each wait followed by a send is the doubling one, unclipped |
| Breaker.RegistryIsExact | src/datasluice/runtime/resilience.py:196-256 | after any history count, open flag, opening time and trial are what the history says, for every key |
| Breaker.AfterResponse | src/datasluice/runtime/resilience.py:226-236 | in the registry a 5xx is one failure more, a 2xx or 3xx leaves none, other statuses leave the count; open exactly from the threshold on; the trial ends; other keys and invalid statuses change nothing |
| Breaker.OpenAdmissionWaits | src/datasluice/runtime/resilience.py:196-206 | an open circuit admits exactly one cooldown after the latest failure with no trial outstanding |
| Breaker.ClosedAdmitsAll | src/datasluice/runtime/resilience.py:199-201 | below the threshold everything is admitted |
| Breaker.OneTrialAtATime | src/datasluice/runtime/resilience.py:196-256 | between two admissions through an open circuit lies a verdict or a release |
| Breaker.KeysAreIndependent | src/datasluice/runtime/resilience.py:190-256 | a key's circuit is what its own calls alone would make it |
| BreakerRegistry.Registry.Admission | src/datasluice/runtime/resilience.py:196-206 | admits as the history demands |
| BreakerRegistry.Registry.RecordTransportFailure | src/datasluice/runtime/resilience.py:216-224 | one failure more, open from the threshold on |
| BreakerRegistry.Registry.RecordResponse | src/datasluice/runtime/resilience.py:226-236 | the status decides count, circuit and trial, read off the fields and the history alike; an invalid one is refused and changes nothing |
| BreakerRegistry.Registry.ReleaseTrial | src/datasluice/runtime/resilience.py:243-247 | ends the trial without a verdict |
| BreakerRegistry.Registry.Inspection | src/datasluice/runtime/resilience.py:238-241 | the snapshot is what the history says, and looking changes no count |
| BreakerRegistry.Registry.ResetCircuit | src/datasluice/runtime/resilience.py:208-214 | no failures, closed, no trial |
| ProjectionBounds.ProjectFits | src/datasluice/domain/catalog/models.py:86-128 | output nests at most to the depth limit with at most 32 entries a container, marker included, and bounded texts |
| ProjectionBounds.PayloadFits | src/datasluice/domain/catalog/models.py:160-169 | any payload's projection nests at most 8 levels, its evidence at most 8 shapes |
| ProjectionBounds.ProjectNodes | src/datasluice/domain/catalog/models.py:86-98 | every output node was paid for out of the shared budget |
| ProjectionBounds.PayloadNodes | src/datasluice/domain/catalog/models.py:160-169 | at most 256 nodes in a payload's projection |
| ProjectionBounds.NonInterference | src/datasluice/domain/catalog/models.py:101-157 | value output is the same for payloads equal outside masked fields once their texts and names are redacted; structural output for payloads of one shape |
| ProjectionBounds.AllEntriesWhileBudgetLasts | src/datasluice/domain/catalog/models.py:111-123 | while budget is left exactly the first 32 entries are projected |
| ProjectionBounds.MarkerWithoutTruncation | src/datasluice/domain/catalog/models.py:139-151 | a mapping projected whole carries the marker exactly when redaction made two names equal or gives a name the marker's own |
| ProjectionBounds.MarkerIff | src/datasluice/domain/catalog/models.py:101-151 | any mapping carries the marker exactly when entries were not projected, redaction made two projected names equal, or it gives one the marker's own |
| ProjectionFaithful.CleanIsUnchanged | src/datasluice/domain/catalog/models.py:86-128 | within the limits, with nothing masked or rewritten, the projection is the payload itself and spends one unit a node |
| ProjectionFaithful.SmallPayloadIsRetained | src/datasluice/domain/catalog/models.py:160-161 | a clean record payload of at most 256 nodes and 8 levels is retained unchanged |
| ProjectionRedaction.EveryTextIsRedacted | src/datasluice/domain/catalog/models.py:86-136 | of any payload and budget: every text and field name of the value projection is a redacted string or the marker, the mask of a masked field too |
| ProjectionRedaction.ProjectsRedaction | src/datasluice/domain/catalog/models.py:86-136 | within the limits, names staying apart: the projection is the payload with every text and name redacted, every masked value the redacted mask, every integer of more than 768 binary digits the marker, and all else as it was |
| ProjectionRedaction.HugeIff | src/datasluice/domain/catalog/models.py:96-97 | an integer is too long exactly when its magnitude is at least 2^768 |
| ProjectionEvidence.ProjectsEvidence | src/datasluice/domain/catalog/models.py:86-157 | within the limits the structural projection is type, size and the entries' evidence, level by level, and of a single value the name of its type alone |
| ProjectionEvidence.EvidenceIsShape | src/datasluice/domain/catalog/models.py:101-169 | within the limits two payloads have the same evidence if and only if they have the same shape |
| RecordProjection.Entries | src/datasluice/domain/catalog/models.py:111-123 | never more entries than the container has or the limit allows |
| ProjectionLoop.ProjectRecord | src/datasluice/domain/catalog/models.py:86-98 | with the mutable budget: the projection and what it leaves |
| ProjectionLoop.ProjectEntries | src/datasluice/domain/catalog/models.py:109-123 | the loop collects the entries, for a mapping as dictionary assignments |
| ImportClosure.AncestorIsPrefix | scripts/extract_udata_oracle.py:69-72 | the packages of a module are its proper non-empty prefixes |
| ImportClosure.CandidatesMean | scripts/extract_udata_oracle.py:125-146 | what a demanded name brings in is itself and the packages around it |
| ImportClosure.StockModules | scripts/extract_udata_oracle.py:125-146 | ends with exactly the least set that covers the initial imports and is closed under imports and packages, or names a module of every such set that does not parse |
| InheritedMethods.CollectsExactlyTheInherited | scripts/extract_udata_oracle.py:222-256 | on any class graph exactly the verbs of the reachable classes are collected |
| InheritedMethods.SimplePathsAreFollowed | scripts/extract_udata_oracle.py:235-256 | cutting a branch at a repeated class loses no chain without repetition |
| InheritedMethods.ResolveMeans | scripts/extract_udata_oracle.py:190-219 | a name means the module's own class of that name, else the one in the module it imports the name from, if that has it |
| InheritedMethods.Extractor.ResolveBaseClass | scripts/extract_udata_oracle.py:190-219 | exactly the class the name means on the tree's classes and imports; the memory of resolved imports never changes an answer |
| InheritedMethods.Extractor.InheritedHttpMethods | scripts/extract_udata_oracle.py:222-256 | with that memory, what the recursion means; it ends on cycles |
| InheritedMethods.Extractor.RouteMethods | scripts/extract_udata_oracle.py:335-355 | a route class gets exactly the verbs of the classes reachable from it |

## Left out

- The asynchronous bulk executor and asynchronous retry: they depend on task cancellation semantics.
- Asynchronous capability flights are part of the machine's registration, invalidation and storing; their
  futures' delivery on the event loop is not modelled, and the class models a client that resolves synchronously.
- Conditional HTTP fetches, other access kinds and formats, resources without a checkpointable reader.
- Content digests and blob digests of published files, file sizes, raw mode and artifact provenance.
- The in-memory state store as a class; passes over a store without compare-and-swap are those of `SyncUnlocked`
  whose commits always overwrite.
- Unconditional `put` and unlocked `delete` racing a conditional write.
- `SyncProcesses` compares states where the store compares their bytes (`StateCodec.EncodingIsInjective`), and
  takes the key lock as one holder; how the lock comes about is `LockSafety`, and the two are not one machine.
- A pass's loading of state, digest and destination health is one step, also where no lock protects it.
- Receipt tokens, the resumption cursor carried by plans and checkpoints, and the elapsed times of summaries.
- What an item's execution does: a failing or overrunning item is one of the outcomes that may settle it.
- `_parallelism`: the configured bound is the minimum it computes, between 1 and 32.
- Windows lock polling: a wait for a lock file that times out is a step that may be taken at any time.
- Caches with different times to live over one directory, and the metadata sidecar of a content row.
- The asyncio and thread scheduling that decides which step comes next; every order is allowed.
- Redaction of strings and the choice of masked names: the projection takes both as functions, of which only
  the length bound of redacted text is used.
- Parsing of Python sources: modules, imports, classes and bases are given as tables.
