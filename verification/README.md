# HyperPipe's delivery protocol, in Dafny

HyperPipe streams a blockchain into sinks. A *source* walks the chain by a cursor, cuts each answer into
chunked batches and sends them through processors to sinks. It remembers the hashes of the last blocks it
sent, and when the chain is reorganised it tells the sinks to roll back and rewinds. Each sink acks what it
has accepted per source; a checkpoint tick snapshots these cursors, flushes the sinks and persists the
snapshot, and a restart resumes every source from the least cursor of the sinks it feeds.

This project models that protocol and the algorithms around it, and proves what the documentation promises
of them, over all inputs and all runs. Where a promise does not hold of the code as it stands, the
hypothesis it needs is explicit and a lemma shows what goes wrong without it.

| file | contents |
|---|---|
| `Common.dfy` | options, results, saturating subtraction, lexicographic comparison |
| `Encoding.dfy` | the batch envelope; chains, their records on a block range, a stream with rollbacks applied |
| `Reorg.dfy` | `ReorgTracker`, the bounded window of block hashes |
| `Source.dfy` | the source loop: planning, paging sweep, fork location, chunking, rollback |
| `Replay.dfy` | fork location, reorg detection and replay correctness over runs |
| `SourceRuns.dfy` | tracker bounds, tiling and EOF, unchanging chains, where the replay hypotheses come from |
| `Checkpoint.dfy` | the checkpoint store; cursor interleavings; the key-value cache |
| `SinkTask.dfy` | retries, acks and rewinds of one sink; where a sink that consumed a stream resumes |
| `WindowRestart.dfy` | the hash window across a crash and restart |
| `Delivery.dfy`, `DeliverySafety.dfy`, `DeliveryProgress.dfy` | the whole pipeline as a labelled transition system, its at-least-once proof, and that it never gets stuck |
| `DeliveryHazards.dfy`, `DeliveryPaths.dfy` | a run that breaks the guarantee for each hazard, and the exact conditions on hazards, start blocks and paths |
| `HostedSink.dfy` | the same pipeline with a buffering sink's instance, buffers, encodings and puts spelled out |
| `DeliveryWiring.dfy` | the source loop and the validated config as the pipeline sees them |
| `Dag.dfy`, `Config.dfy` | cycle detection, the DAG rules of config validation, reachability |
| `FanOut.dfy` | fan-out with in-place removal of closed branches; what a processor task passes on |
| `Buffers.dfy`, `Pool.dfy` | the object-store sink's buffers, and the pool of sink instances |
| `PgTable.dfy`, `PgSink.dfy` | upserts, grouping and rollback deletes as table operations; the table after a stream, and after the streams of several chains |
| `Filter.dfy` | what every filter predicate means, on decimal strings of any length and on what is not numeric |

Objects whose methods update fields are classes; each method's postcondition equates the new state with a
function of the old one, and the lemmas say what those functions mean. `hide` is used in a few proofs to keep
them small.

## Hypotheses

* **Replay.** Versions of a chain are hash-linked (equal hash at a height, equal history below), responses
  describe one version exactly (`Replay.Honest`), and at each poll that emits, either nothing emitted is
  standing or block cursor-1 is tracked and the response carries a rollback guard (`Replay.Watched`).
  `SourceRuns.ReplayFromGoodAnswers` derives this from conditions on the answers alone,
  `Replay.DetectionNeedsTipAndGuard` says that the tracked block and the guard are exactly what detection needs,
  and `SourceRuns.UntrackedParentMixesChains` shows a stream gone wrong without them. The window must start below the
  cursor: `SourceRuns.RewindNeverForwardIff` says exactly when a "rewind" cannot skip blocks. `Lowest` in the
  replay theorems is the lowest cursor so far; it is the start block unless a rollback went below it.
* **At-least-once.** Paths from one source to one sink deliver the same of every record
  (`DeliveryPaths.SafeIffPathsAgree`), which the config guarantees whatever the processors do exactly when no two
  paths share source and sink (`DeliveryPaths.SafeIffSinglePaths`); a start block for every live source
  (`DeliveryHazards.SafeIffPinned`); processors that neither fail nor split a batch; and for a buffering sink no
  trap, no object taken and not stored, no flush while a write has the instance checked out, and no panicking
  flush task, each necessary (`DeliveryHazards.SafeIffNoHazard`). Chains do not change here; reorgs are treated
  in the replay theorems, which are crash-free. Crashes are allowed anywhere.
* **Cursor interleavings.** Flooring and writing one row is one step, and SQLite has a single writer.
* **Sinks.** Sequential writer per sink; at most one source per chain feeds a rollback-enabled table, whose
  unique key contains the block-number column, and the chain column when several chains share it, and fixes which
  columns a row has; with auto-DDL on, such a table does not exist before the instance's first write.

Where documentation and code differ the code is followed. ARCHITECTURE.md section 8.2 says key-values
commit with the cursor and so never run ahead of the stream; the code drains them when it persists, not when
it takes the snapshot, so they can exactly when something is set in between
(`Checkpoint.CommitsAsOfSnapshotIff`), and they are forgotten when the transaction fails
(`Checkpoint.LostIff`). A flush task that panics counts as flushed (`Checkpoint.CheckpointOnce`). With
auto-DDL on, the postgres sink reports any failed rollback as success until it has written once
(`PgSink.SuccessMeansDeletedIff`).

## Model

| member | source | states |
|---|---|---|
| Replay.ReplayIsOneChain | crates/source-hypersync/src/lib.rs:104-220 | However the chain is replaced between polls, at every point of the run the emitted stream with rollbacks applied is exactly one served version's records on [lowest cursor so far, cursor): no gap, duplicate or forked record |
| SourceRuns.ReplayFromGoodAnswers | crates/source-hypersync/src/lib.rs:122-209 | The same from conditions on the responses alone: guard and tip hash present, and each rollback finds a surviving block or rewinds to the lowest cursor |
| Replay.TraceIsRun | crates/source-hypersync/src/lib.rs:104-221 | The states the run theorems speak of are those the loop passes through, ending where `Source.HyperSyncSource.Loop` ends |
| Replay.StopIsFinal | crates/source-hypersync/src/lib.rs:104-107 | Told to stop, the source sends nothing more, not even an EOF, and stays where it is |
| SourceRuns.EndsOnlyWhenToldOrFinished | crates/source-hypersync/src/lib.rs:104-221 | Only a stop or the EOF of a finished backfill ends the loop: a failed query, a stalled server or a reorg never does |
| Replay.RollbackKeepsReplayed | crates/source-hypersync/src/lib.rs:125-149 | A rollback moves the cursor back and leaves the stream one chain's records, whatever the sweep answered |
| Replay.EmitKeepsReplayed | crates/source-hypersync/src/lib.rs:167-209 | Emitting from a version that agrees below the cursor leaves the stream that version's records |
| SourceRuns.UntrackedParentMixesChains | crates/source-hypersync/src/reorg.rs:69-87 | With block cursor-1 untracked, two polls of different versions give a stream that is no version's history |
| Replay.DetectionIsExact | crates/source-hypersync/src/reorg.rs:89-115 | With block cursor-1 tracked and a guard from the cursor, a conflict is reported iff the chain below the cursor changed |
| Replay.DetectionNeedsTipAndGuard | crates/source-hypersync/src/reorg.rs:89-115 | Every answer that raises no conflict comes from a chain unchanged below the cursor iff answers carry a guard and block cursor-1 is tracked |
| Replay.ConflictIffMentioned | crates/source-hypersync/src/reorg.rs:92-115 | An honest response conflicts iff it lists, or names as the parent of the first block scanned, a tracked block that is no longer on the chain |
| Replay.FoundForkIsCanonical | crates/source-hypersync/src/lib.rs:227-241 | A fork found by matching, even from a partial sweep, is canonical, and so is everything the purge keeps |
| Replay.CompleteSweepFindsHighest | crates/source-hypersync/src/reorg.rs:117-125 | A complete sweep finds a fork iff a tracked block survives, and then the highest surviving one |
| Replay.CoarseForkKeepsNothingIff | crates/source-hypersync/src/lib.rs:228-233 | The coarse fallback voids every tracked hash iff block 0 is not tracked |
| Replay.CoarseForkIsTight | crates/source-hypersync/src/lib.rs:228-233 | The coarse fallback is the block right below the lowest tracked one; with nothing tracked it goes back the window and one block |
| Replay.RollbackIsTight | crates/source-hypersync/src/lib.rs:125-149 | After a complete sweep the cursor stands right after the highest surviving tracked block, or at the lowest tracked one when none survives, and never below `from_block` |
| Replay.RollbackSends | crates/source-hypersync/src/lib.rs:135-147 | A rollback sends one batch, for the source's chain, at the fork, and leaves the cursor right after the fork or at `from_block` |
| Replay.SweepComplete | crates/source-hypersync/src/client.rs:166-190 | Pages that answer, advance and list what they scanned cover the whole requested range |
| Replay.SweepIsItsPages | crates/source-hypersync/src/client.rs:166-190 | A sweep fails iff one of its requests does; otherwise it lists exactly what its pages list, a stalled server's included |
| Replay.ForkAsksTrackedRange | crates/source-hypersync/src/lib.rs:227-252 | Locating a fork depends on what the server says of the blocks from the lowest tracked one up to the cursor, and on nothing else |
| Source.BlockHashes | crates/source-hypersync/src/client.rs:166-190 | The paging loop terminates and returns the concatenated pages, stopping when the server stops advancing |
| Source.HyperSyncSource.Iterate | crates/source-hypersync/src/lib.rs:104-220 | One iteration takes the loop's state to the step function's (wait, EOF, rollback or emit) and saves the hash window after every rollback and emission |
| Source.HyperSyncSource.Locate | crates/source-hypersync/src/lib.rs:223-252 | The fork is the newest stored block the sweep confirms, else the coarse one |
| Source.HyperSyncSource.SendChunks | crates/source-hypersync/src/lib.rs:178-200 | The chunk loop sends the chunks of the range in order |
| Source.HyperSyncSource.Loop | crates/source-hypersync/src/lib.rs:104-221 | The loop over any polls reaches the state the step function reaches |
| Replay.ChunksOfRange | crates/source-hypersync/src/lib.rs:178-195 | Chunks carry the source and its chain, are numbered, full but for the last, and only the last acks the range end, the others the range start |
| Replay.ChunksConcat | crates/source-hypersync/src/lib.rs:178-195 | Chunks concatenate to the range's records |
| Replay.PlanStepBounds | crates/source-hypersync/src/lib.rs:289-324 | An emit step moves forward and never past the response, `to_block` or height - confirmations; EOF only at the end of a backfill |
| Replay.PlanStepIsMaximal | crates/source-hypersync/src/lib.rs:289-324 | An emit step is planned iff some block past the cursor may be emitted up to, and ends at the highest such block; otherwise the step is EOF iff a backfill stands at or past `to_block` |
| SourceRuns.EmissionsTile | crates/source-hypersync/src/lib.rs:152-218 | While no poll finds a reorg, emitted ranges abut from start to cursor, stay in bounds, and number at most the blocks walked, so at most to_block - start |
| SourceRuns.StreamShape | crates/source-hypersync/src/lib.rs:182-216 | While no poll finds a reorg, everything sent is a chunk of an emitted range, except one EOF, last, at or after `to_block` |
| SourceRuns.FixedChainStream | crates/source-hypersync/src/lib.rs:104-220 | On an unchanging chain no rollback is emitted and the stream is the chain's records from start to cursor |
| SourceRuns.BackfillDeliversRange | crates/source-hypersync/src/lib.rs:211-216 | A finished backfill has sent its whole range once and in order |
| SourceRuns.ReachingTheEndEnds | crates/source-hypersync/src/lib.rs:211-216 | The first answer that reaches `to_block` with the range confirmed ends a backfill, with its EOF sent |
| SourceRuns.BackfillFinishes | crates/source-hypersync/src/lib.rs:104-220 | While no poll finds a reorg, a backfill whose answers make progress ends, EOF sent, within as many polls as its range has blocks |
| SourceRuns.TrackerStep | crates/source-hypersync/src/lib.rs:125-150 | Every step keeps the window below the cursor and within its size; rollbacks never raise the cursor nor go below `from_block`, other steps never lower it |
| SourceRuns.TrackerRun | crates/source-hypersync/src/lib.rs:82-209 | The tracker invariant holds over every run |
| SourceRuns.EmitFillsWindow | crates/source-hypersync/src/lib.rs:202-207 | An emission leaves the highest blocks of what was tracked and what the answer adds, as many as the configured window holds |
| SourceRuns.RewindNeverForwardIff | crates/source-hypersync/src/lib.rs:227-252 | With sweeps confined to the requested range, no rollback can move the cursor forward iff the lowest tracked block is below the cursor (or at it, above block 0) |
| SourceRuns.LiveStartSkipsHistoryIff | crates/source-hypersync/src/lib.rs:97-102 | A fresh run can start above its start block iff the source is live with none configured |
| SourceRuns.StartCursorMeaning | crates/source-hypersync/src/lib.rs:82-102 | A run starts at the restored or configured block, whichever is higher, and a live one with neither exactly `confirmations` below the head |
| SourceRuns.HeadStartIsNewestConfirmed | crates/source-hypersync/src/lib.rs:97-102 | A start at the head is the newest confirmed block: that block is all the first step may emit |
| Reorg.ReorgTracker.Record | crates/source-hypersync/src/reorg.rs:66-87 | Hashes of emitted blocks and the guard's are inserted, then the window trimmed |
| Reorg.InsertedMeaning | crates/source-hypersync/src/reorg.rs:69-86 | Before trimming, a block's hash is the guard's parent hash, else the guard's own, else the last listed one, else the old one, and only blocks below the bound are added but for the parent |
| Reorg.RecordedMeaning | crates/source-hypersync/src/reorg.rs:66-87 | Recording leaves the highest `window` blocks of that |
| Reorg.ReorgTracker.Conflict | crates/source-hypersync/src/reorg.rs:89-115 | Returns the lowest stored block the response contradicts, none iff there is none |
| Reorg.ReorgTracker.FindLastMatching | crates/source-hypersync/src/reorg.rs:117-125 | Returns the highest stored block the canonical map confirms |
| Reorg.TrimmedKeepsHighest | crates/source-hypersync/src/reorg.rs:136-140 | Trimming keeps exactly the `window` highest blocks with their hashes |
| Reorg.CollectedMeaning | crates/source-hypersync/src/reorg.rs:41-52 | A block listed twice has the hash of the last pair that lists it |
| Reorg.SaveLoadRoundTrip | crates/source-hypersync/src/reorg.rs:36-64 | A saved window loads back as it was, trimmed to the new window |
| Reorg.AscendingIsSorted | crates/source-hypersync/src/reorg.rs:56-64 | The saved pairs are exactly the window's blocks, lowest first |
| Encoding.RetainRecs | crates/source-hypersync/src/lib.rs:167-176 | Truncating a range's records at a block leaves the records of the blocks below it |
| Encoding.RetainOne | crates/source-hypersync/src/lib.rs:172-176 | A record is kept iff its block number is below the bound or does not parse |
| DeliverySafety.AtLeastOnce | crates/cli/src/pipeline.rs:479-531 | With agreeing paths and start blocks, over every hazard-free run with any crashes and restarts, no live cursor passes a record its sink lacks and no durable one a record not stored, counting from where the source first started |
| DeliverySafety.RestartSkipsNothing | crates/cli/src/pipeline.rs:258-264 | Everything below the block a source restarts from after a crash, whatever the head, is already stored |
| DeliverySafety.RestartWalksNothingTwice | crates/cli/src/pipeline.rs:258-264 | A restart resumes exactly at the least durable cursor of the sinks, or at the start block when one is missing or it is higher |
| DeliveryProgress.EverythingGetsThrough | crates/cli/src/pipeline.rs:336-531 | From every state of a hazard-free run with no sink paused the pipeline can go on until nothing is in flight, all the sources have walked past is stored, and every ack is durable |
| DeliveryHazards.SafeIffPinned | crates/source-hypersync/src/lib.rs:97-102 | A source configuration keeps the guarantee on every pipeline with agreeing paths and every run iff, if live, it has a start block |
| DeliveryHazards.HeadJumpLosesRecords | crates/source-hypersync/src/lib.rs:97-102 | Without one, a crash before the first persisted cursor restarts at a later head and the cursor passes undelivered blocks |
| DeliveryHazards.SafeIffNoHazard | crates/cli/src/pipeline.rs:440-531 | With agreeing paths and start blocks, a set of hazards leaves every pipeline and run safe iff it is empty |
| DeliveryPaths.SafeIffPathsAgree | crates/cli/src/pipeline.rs:479-511 | Paths keep the guarantee on every pipeline and hazard-free run iff those from one source to one sink make the same deliveries of every record |
| DeliveryPaths.SafeIffSinglePaths | crates/cli/src/pipeline.rs:479-511 | Paths with given (source, sink) keys keep it whatever their processors do iff no two share a key |
| DeliverySafety.DrainedMeansDelivered | crates/cli/src/pipeline.rs:462-476 | With nothing in flight a sink has everything its source has walked past |
| DeliverySafety.FlushBeforePersist | crates/cli/src/pipeline.rs:336-351 | A tick that flushed every sink persists cursors below which everything is stored, whatever was written or acked while it flushed |
| DeliverySafety.ImageOfProcessed | crates/encoding/src/lib.rs:144-160 | Handling a batch by a processor changes neither the ack nor what the sink will be given |
| DeliveryHazards.TwoPathsLoseRecords | crates/cli/src/pipeline.rs:479-511 | On a pipeline whose two paths share source and sink, with an exact restart list and no hazard, the first copy is acked past records of the second |
| DeliveryHazards.ProcessorErrorLosesRecords | crates/cli/src/pipeline.rs:451-461 | On a single-path pipeline a skipped batch is acked past by the next one |
| DeliveryHazards.SplitOutputLosesRecords | crates/cli/src/pipeline.rs:471-475 | On a single-path pipeline the first of two outputs of one batch acks the whole range |
| DeliveryHazards.TrapLosesRecords | crates/wasm-host/src/lib.rs:527-539 | A write that traps drops the instance, with records already acked |
| DeliveryHazards.FailedPutLosesRecords | modules/s3-sink/src/lib.rs:17-27 | A write whose put fails after the rows were taken drops records already acked |
| DeliveryHazards.FailedFlushLosesRecords | modules/s3-sink/src/lib.rs:48-52 | So does a flush whose put fails, though its tick persists nothing |
| DeliveryHazards.FlushDuringWriteLosesRecords | crates/wasm-host/src/lib.rs:527-556 | A flush while a write has the instance checked out misses it, and the tick persists past unstored records |
| DeliveryHazards.FlushPanicLosesRecords | crates/cli/src/pipeline.rs:336-351 | A flush task that panics counts as flushed, and the tick persists past unstored records |
| HostedSink.StepIsEvent | modules/s3-sink/src/lib.rs:17-52 | Every write, trap and flush of the object-store instance, with any encodings and puts, is an event of the pipeline and keeps its record sets those of the instance; it is hazard-free iff nothing taken was lost and no flush met a checked-out instance |
| HostedSink.WriteMatches | modules/s3-sink/src/lib.rs:37-46 | A finished write of a data batch is always a possible event of the pipeline, hazard-free iff it lost nothing it took, and accepts the batch iff everything encoded and was put |
| HostedSink.ControlMatches | modules/s3-sink/src/lib.rs:54-71 | So is one of an EOF batch, which is accepted, leaves the buffers alone and is never a hazard |
| HostedSink.FlushMatches | crates/wasm-host/src/lib.rs:544-556 | So is a flush, which reaches the instance only while no write has it checked out |
| HostedSink.DurableMeansInObjects | crates/cli/src/pipeline.rs:336-351 | In every hazard-free run, all the sink was owed below its durable cursor is in stored objects, and below its live cursor in objects or buffers |
| DeliveryWiring.SourceRunIsEvents | crates/source-hypersync/src/lib.rs:104-220 | Every run of the source loop on an unchanging chain is a series of the pipeline's emission and EOF events, sending exactly what the loop sends |
| DeliveryWiring.ListsCoverRestarts | crates/cli/src/pipeline.rs:355-379 | The computed restart lists hold every sink a path ends in and none its source does not reach |
| SinkTask.Consume | crates/cli/src/pipeline.rs:479-531 | Cursors move for exactly the batches before the first that is refused three times, panics, or whose rewind fails |
| SinkTask.WriteWithRetries | crates/cli/src/pipeline.rs:495-529 | Succeeds iff some attempt within the budget is accepted with only refusals before it |
| SinkTask.ThreeAttempts | crates/cli/src/pipeline.rs:496-531 | The budget is three attempts, the later ones only after refusals |
| SinkTask.OnlyRollbacksWriteThrough | crates/cli/src/pipeline.rs:498-512 | Consuming batches leaves the durable rows alone but for rollbacks, which only lower them |
| SinkTask.SinkTrailsSource | crates/cli/src/pipeline.rs:484-512 | Over every source run, reorgs included, a sink that consumed the stream stands at or below the source's cursor |
| SinkTask.DrainedSinkResumes | crates/cli/src/pipeline.rs:479-512 | At every point of a watched run, reorgs included, a sink that consumed everything sent stands at a block from which the rest of a served chain completes what it was sent: restarted there it is sent nothing twice and misses nothing |
| CursorInterleavings.DurableNeverExceedsLive | crates/engine/src/checkpoint.rs:87-205 | From any opened store and under every interleaving of acks, rewinds, snapshots, row-by-row persists and crashes, outside a rewind in progress a durable cursor is at most the live one |
| CursorInterleavings.RewindSticks | crates/engine/src/checkpoint.rs:95-125 | In every run through a rewind and its row update, no earlier snapshot raises the cursor again until something past it is acked |
| CursorInterleavings.StepsAreStoreCalls | crates/engine/src/checkpoint.rs:85-205 | Left alone, the steps of an ack, a rewind, a row-by-row transaction and a crash do to cursors and rows what the store's calls and reopening it do |
| Checkpoint.CheckpointStore.Ack | crates/engine/src/checkpoint.rs:85-93 | The cursor becomes the larger of itself and the acked block, and no other cursor moves |
| Checkpoint.AcksReachMaximum | crates/engine/src/checkpoint.rs:85-93 | Over any series of acks the cursor is the maximum of them and of where it stood |
| Checkpoint.CheckpointStore.Rewind | crates/engine/src/checkpoint.rs:95-125 | Live and durable cursors end at the lower of themselves and the block rewound to, and no other moves; a failed write-through leaves the row |
| Checkpoint.CheckpointStore.Restore | crates/engine/src/checkpoint.rs:127-143 | The least cursor over the sinks, none iff the list is empty or a sink has no cursor |
| Checkpoint.CheckpointStore.PersistSnapshot | crates/engine/src/checkpoint.rs:155-205 | On commit every snapshot row is floored at the live cursor and the dirty values become durable; on failure only the dirty set is gone |
| Checkpoint.CheckpointStore.Get | crates/engine/src/checkpoint.rs:209-231 | Answers dirty, then cached, then durable, and caches what it read |
| Checkpoint.KvRefinesPlainMap | crates/engine/src/checkpoint.rs:208-238 | Over any run of get, set and persist, failed ones included, `get` answers as a plain map; a reopened store too outside dirty and lost keys |
| Checkpoint.CheckpointOnce | crates/cli/src/pipeline.rs:336-351 | The tick persists the snapshot iff no flush returned an error; a panicked flush does not stop it |
| Checkpoint.CommitMakesDurable | crates/engine/src/checkpoint.rs:192-204 | After a successful persist every key with no failed one since its last set is durable |
| Checkpoint.DurableIffNotLost | crates/engine/src/checkpoint.rs:155-204 | A value unlike all before it is durable after a successful persist iff no failed one has dropped it |
| Checkpoint.LostIff | crates/engine/src/checkpoint.rs:157-160 | A value is dropped iff the first persist after the key's last set failed |
| Checkpoint.FailedCommitLosesValue | crates/engine/src/checkpoint.rs:157-160 | A failed transaction loses the value for good |
| Checkpoint.CommitsAsOfSnapshotIff | crates/engine/src/checkpoint.rs:155-204 | Over any operations between snapshot and commit, the committed key-values are those at the snapshot, for all values, iff nothing is set in between |
| Checkpoint.CursorsCommitAsOfSnapshot | crates/engine/src/checkpoint.rs:165-191 | The committed cursors are those at the snapshot whatever is acked in between |
| WindowRestart.WindowOutrunsCursor | crates/source-hypersync/src/reorg.rs:36-64 | A run of emission, persist, crash and restart ends with the hash window above the cursor, so a reorg can make the source skip blocks |
| CycleDetection.DetectCycle | crates/engine/src/config/mod.rs:787-834 | Succeeds iff no walk from the listed nodes revisits a node; a reported path is a closed walk of the graph |
| CycleDetection.Search.Dfs | crates/engine/src/config/mod.rs:796-825 | The recursion terminates, restores the stack, blackens the node, or reports a closed walk |
| CycleDetection.LassoIffCycle | crates/engine/src/config/mod.rs:786-834 | When every producer is listed that is acyclicity of the whole graph |
| PipelineConfig.Validate | crates/engine/src/config/mod.rs:519-678 | The presence, name, edge, orphan and cycle rules accept exactly the well-formed configs, and any error names a rule that is broken where it says |
| PipelineConfig.ValidatedShape | crates/engine/src/config/mod.rs:607-678 | In a well-formed config each source reaches a sink and each sink is fed by a source |
| PipelineConfig.EdgeIffDeclared | crates/cli/src/pipeline.rs:590-604 | The consumer map has exactly the declared edges |
| PipelineConfig.ConsumersInOrder | crates/cli/src/pipeline.rs:590-604 | A node's consumers are those that list it, processors before sinks, in declaration order and once for each time it is listed |
| PipelineConfig.ReachableSinks | crates/cli/src/pipeline.rs:355-379 | Terminates with exactly the sinks reachable from the source, each once |
| PipelineConfig.ReachableSinksPerSource | crates/cli/src/pipeline.rs:355-379 | One exact restart list per source, never empty in a well-formed config |
| FanOut.Producer.Send | crates/cli/src/pipeline.rs:381-405 | The live list becomes its open members in order, each given the batch once; false iff none remain |
| FanOut.Producer.Drive | crates/cli/src/pipeline.rs:425-436 | Over a run each branch gets the batches before the round that first finds it closed, once and in order |
| FanOut.ServedMeaning | crates/cli/src/pipeline.rs:389-405 | A branch gets everything iff it is open at every round, else exactly what came before it first closed |
| FanOut.OneOutputIff | crates/cli/src/pipeline.rs:451-470 | A data batch is passed on exactly once with its ack iff the processor neither failed nor split it |
| FanOut.ControlPassesOn | crates/cli/src/pipeline.rs:462-470 | A control batch is passed on exactly as answered, so one answered with itself goes on once and unchanged |
| FanOut.ControlsKeepTheirPlace | crates/cli/src/pipeline.rs:446-475 | Behind a processor that fails or splits what it likes the stream has its input's control batches, in order, each after the outputs of the batches before it |
| FanOut.OneForOne | crates/cli/src/pipeline.rs:446-475 | A processor that neither fails nor splits passes on one batch for each input, with its identity and ack |
| FanOut.Producer.Process | crates/cli/src/pipeline.rs:440-477 | Each branch gets the processor's output stream up to the round that first finds it closed, once and in order |
| Buffers.BuffersConserve | modules/s3-sink/src/buffer.rs:66-201 | Whatever encodings and puts fail, per chain the pushed records are, in order, exactly those in stored objects of that chain, in objects taken and not stored, still buffered, or purged past a fork |
| Buffers.TakeLosesNothingIff | modules/s3-sink/src/lib.rs:17-52 | A write or flush loses nothing it took iff it took nothing, or everything it came to encoded and every put succeeded |
| Buffers.FlushEmpties | modules/s3-sink/src/buffer.rs:184-193 | A flush that reports success has stored every buffered record and left none; it does whenever all encodes and puts succeed |
| Buffers.TakesExactlyTheFull | modules/s3-sink/src/buffer.rs:167-182 | A take that succeeds stores exactly the buffers that have reached the threshold, whole, and leaves the others as they were |
| Buffers.KeyBoundsHold | modules/s3-sink/src/buffer.rs:66-131 | With pushes in block order every buffered record lies within the bounds its object key will claim |
| Buffers.KeySpansItsPushes | modules/s3-sink/src/buffer.rs:66-131 | A buffer's key starts where the first push since it was last empty starts, and ends where those pushes reach, cut at the forks rolled back to |
| Buffers.ObjectKeysAreTrue | modules/s3-sink/src/buffer.rs:88-115 | With pushes in block order, the key of every object made, stored or not, has its number of records and bounds their blocks |
| Buffers.ChainBuffers.TakeReady | modules/s3-sink/src/buffer.rs:167-193 | Takes the full buffers in chain order; an encoding failure drops the objects taken before it |
| Buffers.WalkInOrder | modules/s3-sink/src/buffer.rs:167-193 | Objects are made in ascending chain order; a take that breaks off has taken every full buffer before the first that cannot be encoded, and none after it |
| Buffers.ChainBuffers.Push | modules/s3-sink/src/buffer.rs:159-165 | Pushes to the chain's buffer, creating it, and touches no other |
| Buffers.ChainBuffers.Rollback | modules/s3-sink/src/buffer.rs:195-200 | Purges one chain's buffer past the fork and touches no other |
| Buffers.S3Sink.Write | modules/s3-sink/src/lib.rs:37-46 | A write pushes the batch, then takes and uploads full buffers; on an error the batch stays buffered, and what was taken and not stored is gone |
| Buffers.S3Sink.PutAll | modules/s3-sink/src/lib.rs:17-27 | Stores the objects before the first failed put and drops the rest |
| Pool.PoolRefinesSingle | crates/wasm-host/src/lib.rs:527-565 | Whatever the pool size, errors and traps, all calls of one writer since the last trap have reached one instance and the others are as created |
| Pool.OneInstanceHoldsAll | modules/s3-sink/src/lib.rs:48-71 | All buffered rows of the object-store sink sit in one instance, which has seen every operation since the last trap, failed encodings, puts and retries included |
| Pool.RollbackReachesEveryRow | modules/s3-sink/src/lib.rs:58-71 | After a rollback no pooled instance holds a row of that chain past the fork, whatever failed before |
| Pool.FlushReachesAllIff | crates/wasm-host/src/lib.rs:527-556 | A flush that reports success has emptied every instance, whatever was written, iff no write has a slot checked out |
| Pool.TrapDropsBuffered | crates/wasm-host/src/lib.rs:533-539 | A trap leaves only fresh instances |
| Pool.WasmSink.Write | crates/wasm-host/src/lib.rs:527-542 | Pops the top slot or makes one, and pushes it back unless the call trapped |
| Pool.WasmSink.Flush | crates/wasm-host/src/lib.rs:544-556 | Flushes the pooled slots in order up to the first failure; succeeds iff every pooled slot flushes without an error |
| Pool.FlushVisits | crates/wasm-host/src/lib.rs:544-556 | A slot has been flushed iff every slot before it flushed without an error, and is as it was otherwise |
| PgTable.GroupingHarmlessIff | modules/postgres-sink/src/sql.rs:172-183 | For all values and tables the writes by groups in signature order leave the table of the in-order writes iff the last row of a key to write a column has the greatest signature of those that write it |
| PgTable.GroupedEqualsInOrder | modules/postgres-sink/src/sql.rs:172-183 | The direction used by the sink, for given rows and table |
| PgTable.OlderValueSurvives | modules/postgres-sink/src/sql.rs:172-183 | Two rows of a key, the newer with the earlier signature: a shared column keeps the older value |
| PgTable.OvertakingCanBeHarmless | modules/postgres-sink/src/sql.rs:172-183 | A pair out of signature order does no harm when a still later row writes its columns again |
| PgTable.ReplayIsIdempotent | modules/postgres-sink/src/sql.rs:224-256 | Replaying any suffix of already-written rows changes nothing, for every table, unique key and mix of columns |
| PgSink.RedeliveryIsHarmless | modules/postgres-sink/src/lib.rs:28-68 | A table holding blocks [base, a) that is then sent [r, b), r at most a, holds exactly [base, b) |
| PgTable.GroupBySignature | modules/postgres-sink/src/sql.rs:172-183 | One group per signature present, in ascending order of the sorted column names, each that signature's rows in order |
| PgTable.SigOrderMeaning | modules/postgres-sink/src/sql.rs:176-183 | One signature comes before another iff at the first difference of their sorted column names it has ended or has the smaller name |
| PgTable.KeysAreIndependent | modules/postgres-sink/src/sql.rs:238-254 | Each key's row depends only on that key's rows, in their order |
| PgTable.TableCell | modules/postgres-sink/src/sql.rs:236-254 | After any upserts a cell outside the unique key holds what the last row of that key with the column says, or what was there before |
| PgTable.MappedColumn | modules/postgres-sink/src/sql.rs:99-120 | A mapped column holds the value of the last mapped path that resolves |
| PgTable.UnmappedColumn | modules/postgres-sink/src/sql.rs:99-108 | Any other column holds the top-level scalar of that name, and nested values do not enter |
| PgSink.TableHoldsOneChain | modules/postgres-sink/src/lib.rs:28-115 | At every point of a watched run the stream meets `PgSink.Feed`'s hypothesis, and the table it leaves holds exactly one served version's records on [lowest cursor so far, cursor) |
| PgSink.Feed | crates/cli/src/pipeline.rs:479-531 | Driving the sink's grouped writes and rollbacks over a stream, with retries and any database answers, leaves the table of the batches done; it stops early only at a batch whose attempts cannot all succeed |
| PgSink.SharedTableHoldsEachChain | modules/postgres-sink/src/lib.rs:28-115 | The same for each chain of a table fed by several, when the chain column is part of the unique key |
| PgSink.ChainsDoNotMix | modules/postgres-sink/src/sql.rs:185-200 | There, the rows of each chain are always those its own batches alone would have made, rollbacks of the others included |
| PgSink.TableIsView | modules/postgres-sink/src/lib.rs:28-115 | That table equals the one built from the stream with its rollbacks applied |
| PgSink.FitStreamInOrder | modules/postgres-sink/src/sql.rs:172-183 | When a unique key fixes its columns, every batch of the stream is one whose grouping is harmless |
| PgSink.DeleteIsRetain | modules/postgres-sink/src/sql.rs:185-200 | Deleting past a fork gives the table of the records up to it |
| PgSink.RowsOfRecords | modules/postgres-sink/src/lib.rs:29-38 | A batch's rows are what its records resolve to, those without a single column left out |
| PgSink.Sink.Write | modules/postgres-sink/src/lib.rs:28-68 | One transaction: the rows written group by group, as if in order when last writers come last, or nothing changes |
| PgSink.Sink.OnRollback | modules/postgres-sink/src/lib.rs:70-115 | When it goes through, the rows of the chain past the fork are gone, and every other row is as it was: those of other chains or without one, those up to the fork, those without a block number; otherwise nothing changes; failure is reported except before the first write with auto-DDL |
| PgSink.SuccessMeansDeletedIff | modules/postgres-sink/src/lib.rs:70-115 | With a block column, success leaves no row past the fork for every table and database answer iff not (auto-DDL on and nothing written yet) |
| PgSink.FailedRollbackReportedOk | modules/postgres-sink/src/lib.rs:103-110 | In that case a failed delete reports success and the row stays |
| Filter.CmpDecimalIsIntegerOrder | modules/filter/src/filter.rs:157-187 | Decimal comparison is comparison of the integers denoted, for every length, sign, leading zeros and "-0" |
| Filter.NumStrKeepsValue | modules/filter/src/filter.rs:141-155 | Exactly integers and decimal strings are numeric, and rendering keeps the integer |
| Filter.EvalIsIntegerRelation | modules/filter/src/filter.rs:88-116 | On numeric operands each operator is the integer relation |
| Filter.EvalMeaning | modules/filter/src/filter.rs:88-116 | What every operator answers on every field and operand: a missing field passes `ne` only, and an ordering passes only on two numeric operands in that order |
| Filter.OrderingFailsClosed | modules/filter/src/filter.rs:98-113 | No record passes an ordering predicate unless the path leads to a numeric value and the operand is numeric |
| Filter.PathMeaning | modules/filter/src/filter.rs:118-125 | A path resolves to a value iff each segment names a field of the object before it |
| Filter.ComplementIffNumeric | modules/filter/src/filter.rs:98-113 | gt/lte and lt/gte are complements iff both operands are numeric |
| Filter.ValuesEqMeaning | modules/filter/src/filter.rs:127-139 | Equality is by value on numeric operands and by structure elsewhere |
| Filter.InMeaning | modules/filter/src/filter.rs:94-97 | `in` holds iff some listed item is equal in that sense |

## Left out

- Foreign I/O: the HTTP client, SQLite, postgres and object stores appear as answers given to the model.
- JSON and hex parsing, SQL text, identifier quoting, column types and Parquet/NDJSON bytes: records, statements and objects are modelled by their content.
- Object-key uniqueness in the object store: keys of equal-sized chunks of one range can collide, so nothing is claimed about overwrites.
- Real time: backoff, poll and tick intervals are nondeterministic steps.
- Integer width: block numbers are unbounded, so saturation at 2^64 - 1 and the signed 64-bit column are not modelled.
- A send on a closed channel inside the source loop, which only ends the run early.
- Two concurrent writers to one sink, epoch and memory limits of the guest runtime.
- Insert mode of the postgres sink, `union_columns` and `ddl`: the table is modelled in upsert mode with its schema given.
- Floating-point numbers and dotted-path splitting in the filter.
- ABI decoding, webhook and stdout sinks, secrets, chain registry, health server and CLI.
- Unique-key values are compared as written: a number written in two ways gives two rows, where a numeric key column would see one.
- PgSink.Sink.Write: a row whose key columns are missing or null fails the transaction; other constraint errors are the `commits` answer.
