# Verified model of btc_parser_app

A Dafny model of the stateful parts of the Bitcoin parser, with proofs of what
they keep over whole runs.  Nothing was executed; what the table below says of a
member is its contract, which the verifier checks.

## What is modelled

**rpc-ingest.**  A block is identified by its hash; a `Tree` collects all blocks
that any node may serve, and an active chain is a path of it.  The disk
(`DiskModel.DiskState`) holds the open and exported parts of the four logical
CSVs with their counters, `index.csv`, `block_status.csv`, `current.csv`,
`latest.csv` and the reorg logs.  It changes only by single durable `Action`s.

- `Pass.RunPass` gives one pass as the list of durable actions it performs, the
  canonical flags it leaves in memory and the way it ends, for any answers of the
  node.  `Runs.Run` strings passes together: the chain may change between
  passes, calls may fail, the stop flag may be seen at any height, the process
  may be killed between any two durable steps and restarted, and a consumer may
  delete exported parts at any time.
- The classes `PartWriter.PartSequencer`, `ReorgState.IndexStore`,
  `ReorgState.BlockStatusStore`, `Prefetch.ParsedBlocks` and `Ingest.Ingester` are
  the code, updating its fields and files in place.  Each method is proved to
  perform exactly the actions that the specification lists, in that order;
  `Ingest.Ingester.Cycle` is proved to be `Pass.RunPass`, so the theorems about
  runs are about this code.
- The theorems are in `PartRuns`, `CrashSafety` and `Runs` (kills), `Recovery` and
  `ReorgRuns`, `Progress` and `TargetDepth`, `BlockRows`, `ExportOrder` and `ExactlyOnce`,
  `Duplicates`, `CanonicalFlags` and `FlagsAnyRun`, `ParallelCatchup`,
  `SchemaBackfill` and `Unvisited`.  `Witnesses` and `OffChainRun` have concrete
  runs from nothing that reach what the exact conditions exclude.

**mempool-watch.**  `MempoolLife` defines the steps of one flagged transaction,
the store and the event log; `MempoolNode` says what each handler does to one
transaction, given the node's answers, and `MempoolOutcomes` what every step is
evidence of and what a handler that completes has settled; `MempoolWatch` has the
classes.  Every
handler is proved to record, for each transaction, exactly those steps, and a
prefix of them if a call fails on the way.  The invariant `MempoolWatcher.Valid`,
which every handler keeps, says that at every kill point so far the log was level
with the store or one event ahead of it, and never behind.

**The smaller pieces.**  `Backfill` (the resumable price backfill), `RateLimiter`
(the token bucket, over exact reals) and `BlockParser` (the aggregation of a
block and its detail rows).

## Hypotheses

They are `requires` clauses, or part of the state space; the properties are false
without them.

- One append, rename, atomic replacement or counter write is one durable step.
- The active chain is stable within one pass (`Pass.Stable`), because the
  sequential loop never checks that a block builds on the last one
  (`btc_parser_app/rpc/ingest.py:132-147`).  Between passes it is arbitrary.
- A kill between the rename of a part and the counter write that follows
  (`btc_parser_app/rpc/part_writer.py:142-144`) is excluded; the comment there says
  such a kill never leads to an overwritten part, but it can.
  `PartRuns.RenameWindow` says exactly when.
- `CanonicalFlags.CanonicalTracking` is about runs in which no pass is aborted by
  the node or killed.  For every run `FlagsAnyRun.FlagsAfterAnyRunIff` says exactly
  when the next pass that completes leaves the flags right.
- Where the true time since the previous block is stated, the headers the node
  serves carry the times of the blocks (`Pass.Truthful`), and no pass starts its
  loop off the chain at a block it has to export again (`BlockRows.NeverAtRisk`).
  `BlockRows.FirstGapIff` says exactly when the row of such a block is right; in a
  run without kills there is no such pass.
- The worker counts are irrelevant as long as no pass finds its lowest stale row on
  a detached branch (`ParallelCatchup.StaleOnChains`); on one chain this always
  holds (`ParallelCatchup.OneChainRefines`).
- A block is served at its own height and a hash identifies a block
  (`IngestFacts.Faithful`; it follows from `Pass.Stable`).
- For the backfill, the price points do not change between the runs of a series,
  and there is one writer.

## Where the code falls short of its documentation

- The kill window between rename and counter write.  Over every later run,
  write-once numbering survives it if and only if the first write afterwards was an
  atomic one (`PartRuns.RenameWindow`; `Witnesses.RenameWindowRun` exports a number
  twice).
- A lost counter file.  For the files of an uninterrupted run, write-once numbering
  survives the seeding from the parts on disk if and only if a part is open, nothing
  was exported, or the part exported last has not been deleted yet
  (`PartRuns.LostCounter`; `Witnesses.LostCounterRun` exports part 1 twice).
- Canonical flags cleared by a recovery whose pass was then cut short are wrong when
  the node returns to that branch, because `discard_pending` does not roll them back
  and the stored position is still on the chain (`CanonicalFlags.FlipBackLosesFlags`;
  `Witnesses.FlipBackRun` is such a run).  The block stays so over every later run
  none of whose passes visits it (`Unvisited.UnvisitedStays`); a completed pass that
  visits it sets its flag right (`FlagsAnyRun.PassDoes`).
- A stale-schema row of a detached block is not upgraded by a pass that catches up
  (`SchemaBackfill.BackfillCompletesIff`; `Witnesses.StaleRun` is a run that reaches
  such a row).  It stays as it is over every run none of whose passes visits the
  block (`Unvisited.UnvisitedStays`).
- A pass that rewinds below a stale row of a detached branch and prefetches does
  something else than the same pass with one worker
  (`ParallelCatchup.WorkersMatterIff`): it stops at once, while the sequential loop
  does not notice.  `OffChainRun.WorkersMatterRun` is a run that reaches such a pass.
- A price backfill interrupted in a periodic flush, between appending its rows and
  forgetting them, appends them again in the flush on the way out.  A series of runs
  adds a date twice if and only if this happens in it with rows staged
  (`Backfill.SeriesAddsTwiceIff`; `Witnesses.RepeatedPriceRun`); but for the repeated
  rows the result is still that of one run (`Backfill.ResumedEqualsOneRun`).

## Model

| member | source | states |
|---|---|---|
| PartWriter.HighestPart | btc_parser_app/common/csv_writer.py:50-63 | the scan for the highest part number on disk, 0 if there is none |
| PartWriter.PartSequencer.constructor | btc_parser_app/rpc/part_writer.py:82-114 | the counter loaded is the persisted one, else the highest open part, else the highest exported one |
| PartWriter.PartSequencer.CloseIfOpen | btc_parser_app/rpc/part_writer.py:119-144 | hands the open part over by a rename, if it exists, and then persists the closed counter; nothing if no part is open |
| PartWriter.PartSequencer.WriteBatched | btc_parser_app/rpc/part_writer.py:146-169 | the exact durable steps: rotate if the part is full or closed, append, persist; and the new counter in memory |
| PartWriter.PartSequencer.WriteAtomic | btc_parser_app/rpc/part_writer.py:171-192 | the exact durable steps: close, persist the next number, publish the whole part under it |
| PartRuns.WriteKeepsParts | btc_parser_app/rpc/part_writer.py:93-192 | a write cut anywhere outside the rename window keeps the numbering consistent and loses no row; completed, its rows are stored and the counter file agrees with memory |
| PartRuns.ExportedPartsAreWriteOnce | btc_parser_app/rpc/part_writer.py:93-192 | over any run of batched and atomic writes, kills, restarts and deletions by the consumer, exported part numbers strictly increase and no exported part ever changes |
| PartRuns.OrderPreservingConservation | btc_parser_app/rpc/part_writer.py:146-192 | in uninterrupted runs the exported parts in number order and then the open part are all rows ever written, in call order, and no append went to a part at the cap |
| PartRuns.RenameWindow | btc_parser_app/rpc/part_writer.py:129-144 | after a kill between rename and counter write, over every later run of writes, kills, restarts and deletions, the numbering is consistent, and so write-once, if and only if the first write that gets anything done is atomic; otherwise a number has been exported twice as soon as the counter has moved on |
| PartRuns.WriteGoesTo | btc_parser_app/rpc/part_writer.py:119-192 | a batched write is appended to the open part if that is below the cap, and otherwise exports it and opens the next one; an atomic one exports the open part and then its rows alone under the next number |
| Witnesses.RenameWindowRun | btc_parser_app/rpc/part_writer.py:129-144 | such a run in which a number is exported twice |
| PartRuns.LostCounterIff | btc_parser_app/rpc/part_writer.py:93-114 | after a lost counter file the first write leaves a consistent numbering if and only if the number seeded from disk is not below an exported one |
| PartRuns.LostCounter | btc_parser_app/rpc/part_writer.py:93-114 | over every later run: write-once if a part is open, nothing was exported or the last exported part is still there; otherwise the next part gets a number exported before |
| Witnesses.LostCounterRun | btc_parser_app/rpc/part_writer.py:93-114 | one atomic write, its part deleted and the counter file lost: the next write exports part 1 again |
| PassFacts.WriteWritesOnce | btc_parser_app/rpc/part_writer.py:146-192 | a completed write adds its rows to the logical CSV once, in either mode |
| ReorgState.IndexStore.constructor | btc_parser_app/rpc/reorg_state.py:110-155 | the view is that of the file, the last row of a hash winning; nothing staged |
| ReorgState.IndexStore.EarliestStale | btc_parser_app/rpc/reorg_state.py:170-189 | a stale row of least height, None exactly if nothing is stale; the cached answer stays right |
| ReorgState.IndexStore.Add | btc_parser_app/rpc/reorg_state.py:191-208 | stages a row unless one of its version or newer is flushed or staged |
| ReorgState.IndexStore.DiscardPending | btc_parser_app/rpc/reorg_state.py:210-217 | forgets what is staged and nothing else |
| ReorgState.IndexStore.Flush | btc_parser_app/rpc/reorg_state.py:219-265 | appends the staged rows in one step, makes them visible, and keeps the view that of the file |
| IndexFile.PutStagedNew | btc_parser_app/rpc/reorg_state.py:203-208 | a hash not yet staged is staged last |
| IndexFile.LoadIndexAppend | btc_parser_app/rpc/reorg_state.py:123-155 | reloading a grown file gives the old view updated by the new rows |
| ReorgState.BlockStatusStore.SetCanonicalFlag | btc_parser_app/rpc/reorg_state.py:348-354 | creates or updates the flag, and is dirty only if something changed |
| ReorgState.BlockStatusStore.SetCanonicalFlagIfPresent | btc_parser_app/rpc/reorg_state.py:356-363 | updates the flag if there is one |
| IndexFile.SettingFlags | btc_parser_app/rpc/reorg_state.py:348-363 | setting a flag creates its row, setting it if present creates none, no other row changes, and dirty says whether any did |
| ReorgState.BlockStatusStore.Flush | btc_parser_app/rpc/reorg_state.py:365-375 | rewrites the file if dirty, and only then |
| Prefetch.ParsedBlocks.Next | btc_parser_app/rpc/catchup.py:155-182 | whatever order the futures complete in, the next height's result is handed out, at most 4 * workers futures are outstanding and the window stays full; an exception ends the iteration |
| Prefetch.ParsedBlocks.CompleteAny | btc_parser_app/rpc/catchup.py:155-182 | some running future completes with its own height's result |
| Prefetch.ParsedBlocks.Close | btc_parser_app/rpc/catchup.py:179-182 | cancels what is outstanding |
| Ingest.Ingester.DrainAll | btc_parser_app/rpc/ingest.py:268-290 | the four logical CSVs are written one after the other, with exactly the staged rows, and the buffers are empty |
| Ingest.Ingester.DoCheckpoint | btc_parser_app/rpc/ingest.py:472-482 | drain, index, flags, pointer, in this order; memory and disk are then the specified checkpoint |
| Ingest.Ingester.BufferExport | btc_parser_app/rpc/ingest.py:98-117 | the buffered rows remain exactly those of the blocks staged in the index |
| Ingest.Ingester.ProcessBlock | btc_parser_app/rpc/ingest.py:120-170 | a block is staged if it is not indexed at the current schema, and its flag is confirmed if it has one |
| Ingest.Ingester.FindPosition | btc_parser_app/rpc/ingest.py:322-339 | the stored position or the highest block row on disk, every block row found then being indexed |
| Ingest.Ingester.Seed | btc_parser_app/rpc/reorg_state.py:268-319 | indexes every row found at the oldest schema unless known, and returns a highest one |
| Ingest.Ingester.WalkBackwards | btc_parser_app/rpc/ingest.py:193-222 | the loop finds what the specified walk finds, and the hashes it remembers are those of the active chain |
| Ingest.Ingester.MarkDetached | btc_parser_app/rpc/ingest.py:242-245 | flags the detached blocks, lowest first |
| Ingest.Ingester.RecoverFromReorg | btc_parser_app/rpc/ingest.py:173-265 | the recovery as specified: flags, flush, audit log with detached and attached ranges, ancestor; on a failure nothing durable |
| Ingest.Ingester.EnterLoop | btc_parser_app/rpc/ingest.py:349-378 | rewinds below the lowest stale row; with nothing left to parse writes the position and the flags and ends the pass |
| Ingest.Ingester.VisitHeights | btc_parser_app/rpc/ingest.py:434-506 | the loop visits exactly the specified heights, prefetched or not, with a checkpoint whenever one is due |
| Ingest.Ingester.RunOnePass | btc_parser_app/rpc/ingest.py:293-522 | the actions, flags and outcome of the code are those of the specified pass; the cache that nothing is stale stays right |
| Ingest.Ingester.Cycle | btc_parser_app/rpc/ingest.py:559-598 | the same with an aborted pass followed by the discarding of what it staged: at every pass boundary nothing is staged |
| IngestFacts.StableIsFaithful | btc_parser_app/rpc/catchup.py:128-134 | a chain that is stable within the pass serves each block at its own height |
| Pass.FoldInduction | btc_parser_app/rpc/ingest.py:434-506 | what every step of the loop keeps holds after it, at the height reached |
| PassFacts.CheckpointFacts | btc_parser_app/rpc/ingest.py:472-482 | what a checkpoint leaves on disk: index and rows of the staged blocks, flags, position, and nothing if nothing was staged |
| PassFacts.VisitsAreChain | btc_parser_app/rpc/ingest.py:434-465 | on a stable chain the loop visits a contiguous stretch of it |
| CrashSafety.PassKeepsSound | btc_parser_app/rpc/ingest.py:293-522 | a pass killed between any two durable steps leaves a disk on which nothing indexed is missing and every predecessor is indexed |
| CrashSafety.WalkBackStaysIndexed | btc_parser_app/rpc/ingest.py:210-221 | on such a disk the walk back never meets an unindexed block |
| Runs.IndexNeverAheadOfExports | btc_parser_app/rpc/ingest.py:268-290 | in every run with kills, restarts, aborts, reorgs and deletions every block indexed at the current schema has all its rows in all four logical CSVs |
| Runs.PredecessorsAreIndexed | btc_parser_app/rpc/reorg_state.py:191-265 | in every such run the predecessor of an indexed block is indexed one lower, down to height 0, and the stored position is indexed |
| Runs.RecoveryFindsEveryBlock | btc_parser_app/rpc/ingest.py:210-216 | after every such run the next pass does not meet an "unindexed block", whether it starts at the stored position or at one it seeds |
| Recovery.WalkBackIsExact | btc_parser_app/rpc/ingest.py:201-228 | the walk succeeds if and only if the fork is at most max_reorg_depth blocks down and all blocks above it are indexed |
| ReorgRuns.RecoveryIff | btc_parser_app/rpc/ingest.py:341-347 | after any run from nothing, a pass whose node answers up to the end of the walk stops for manual intervention if and only if its position has left the chain and no ancestor of it on the chain lies within max_reorg_depth; past the recovery it continues from the highest one |
| ReorgRuns.LogComesLast | btc_parser_app/rpc/ingest.py:242-262 | when the audit log of a recovery is written the detached blocks are already flagged non-canonical on disk |
| ReorgRuns.LogIsExact | btc_parser_app/rpc/ingest.py:230-265 | after any run from nothing, a pass that is not killed writes an audit log if and only if its position has left the chain and the recovery succeeds; one log, with the ancestors of the old position above the fork as detached and the blocks of the chain from there to the old height as attached, lowest first |
| Recovery.WalkBackDetaches | btc_parser_app/rpc/ingest.py:201-228 | a walk that succeeds returns the highest common ancestor and the path down to it |
| Recovery.FlagDetachedIsExact | btc_parser_app/rpc/ingest.py:242-245 | afterwards exactly the detached blocks are additionally non-canonical |
| Recovery.DetachedAreAboveFork | btc_parser_app/rpc/ingest.py:230-245 | the detached blocks are exactly the ancestors of the old position that are not ancestors of the fork |
| BlockRows.IndexedBlocksHaveRows | btc_parser_app/rpc/reorg_state.py:268-319 | in every run with kills every indexed block, exported or only seeded, has had a row written to the blocks CSV |
| BlockRows.RowsHaveTrueGaps | btc_parser_app/rpc/ingest.py:120-170 | in every run with kills every blocks row ever written has the true time since the previous block, and the blocks indexed at the current schema are delivered with it, given truthful headers and no pass that starts off the chain at a stale block |
| BlockRows.FirstGapIff | btc_parser_app/rpc/ingest.py:374-378 | the first row a loop stages has the true time since the previous block if and only if the block remembered as the last is as old as the one before it on the chain |
| ExportOrder.PassKeepsOrder | btc_parser_app/rpc/part_writer.py:146-192 | a pass that is not killed keeps each logical CSV in order: parts 1, 2, ... and the open part are all rows written |
| ExactlyOnce.PassIsExact | btc_parser_app/rpc/ingest.py:98-117 | a pass, aborted or not, keeps: every logical CSV is the concatenation of the rows of the indexed blocks, each once |
| ExactlyOnce.ExportedExactlyOnce | btc_parser_app/rpc/ingest.py:581-598 | over every run without kills, one sequence of distinct blocks, exactly the indexed ones, gives the files of all four logical CSVs, exported parts in number order and then the open part; with the true time since the previous block, given truthful headers |
| Duplicates.PassIsBounded | btc_parser_app/rpc/ingest.py:472-482 | a pass killed anywhere writes rows twice for at most one batch of blocks, and each at most once more |
| Duplicates.KillsDuplicateOneDrainEach | btc_parser_app/rpc/ingest.py:472-482 | over whole runs every row of an indexed block is written, and at most once more for every kill that hit its batch |
| CanonicalFlags.CanonicalTracking | btc_parser_app/rpc/ingest.py:173-265 | after any run of passes that ended normally or by stop, an indexed block is effectively canonical if and only if it is the stored position or one of its ancestors, and the stored position lies on the active chain of the last pass that completed |
| CanonicalFlags.CompletedPassTracks | btc_parser_app/rpc/ingest.py:341-522 | one such pass, whose stored position is then on its active chain |
| CanonicalFlags.PassStands | btc_parser_app/rpc/ingest.py:341-522 | a pass cut short leaves flags that stand for the block it had reached |
| CanonicalFlags.CompletedPassTracksIff | btc_parser_app/rpc/reorg_state.py:348-363 | from flags that stand for another block than the stored position, exactly when a completed pass makes them right, in terms of the chain, the fork and the height the pass will end at |
| CanonicalFlags.PassAfterAbort | btc_parser_app/rpc/ingest.py:581-598 | the same for the pass after an aborted one |
| CanonicalFlags.FlipBackLosesFlags | btc_parser_app/rpc/ingest.py:242-262 | a pass aborted below the stored position and then a completed one on a chain that still has it: the old stored position is indexed and an ancestor of the new one, and is flagged non-canonical |
| Witnesses.FlipBackRun | btc_parser_app/rpc/ingest.py:242-262 | three passes from nothing that end so: on branch A, on branch B with a failed fetch, on branch A |
| FlagsAnyRun.PassDoes | btc_parser_app/rpc/ingest.py:341-522 | from any sound disk and any flags, what a completed pass makes of each block's flag: cleared above the fork, set if visited, else kept; in memory and on disk |
| FlagsAnyRun.CompletedPassIsRightIff | btc_parser_app/rpc/ingest.py:341-522 | from any sound disk and any flags, exactly when a completed pass leaves them right, in terms of the flags and index it finds and of the position it will end at, which is known before it, on the chain or off it |
| FlagsAnyRun.FlagsAfterAnyRunIff | btc_parser_app/rpc/ingest.py:559-598 | the same after any run from nothing, with kills and any number of aborted passes |
| Progress.CompletedReaches | btc_parser_app/rpc/ingest.py:434-522 | from any sound disk a pass that completes ends at a position known before it: the one it continues from (so at once if the prefetcher finds that off the chain), or the block of the chain at the target or below the stop flag; and it completes if the node answers |
| TargetDepth.EveryPassIsDeep | btc_parser_app/rpc/ingest.py:306-320 | in every run with kills, each block a pass visits, exports or indexes has at least reorg_confirmations blocks on top of it, and so has the position it saves unless that is not above the one it found; latest.csv, written first, is the block with exactly that many; a chain too short for that is left alone |
| TargetDepth.PassReachesTarget | btc_parser_app/rpc/ingest.py:434-522 | if the node answers, no stop flag is seen and the pass continues from a shallower position on the chain, it ends at exactly that depth, saves it and is caught up |
| TargetDepth.PassIsPaced | btc_parser_app/rpc/ingest.py:381-482 | with a backlog of at most max(reorg_confirmations, 1) every write publishes one block's rows as a part of its own and nothing waits; otherwise every write appends the rows of at most batch_size blocks, and a pass that a fetch cuts short has saved all but the blocks since the last full batch |
| TargetDepth.PrefetchedHeights | btc_parser_app/rpc/ingest.py:394-413 | exactly which heights come from the prefetcher: at least max_reorg_depth below the tip, not beyond the target, in batched mode, with more than 4 * workers of them |
| ParallelCatchup.ParallelRefinesSequential | btc_parser_app/rpc/ingest.py:394-474 | two runs, with kills, restarts, aborts and reorgs, that differ only in the worker counts, pass by pass, end with the same disk and the same flags, as long as no pass finds its lowest stale row on a detached branch |
| ParallelCatchup.OneChainRefines | btc_parser_app/rpc/ingest.py:394-474 | the same without that condition, which always holds, if all nodes serve one linked chain |
| ParallelCatchup.WorkersAreIrrelevant | btc_parser_app/rpc/ingest.py:394-413 | one pass with any number of workers is the pass with one, from any disk a run can leave: the same actions in the same order |
| ParallelCatchup.WorkersMatterIff | btc_parser_app/rpc/ingest.py:349-413 | a pass that prefetches differs from the pass with one worker if and only if it rewinds below a stale row that does not hang on the active chain |
| OffChainRun.WorkersMatterRun | btc_parser_app/rpc/ingest.py:349-413 | three passes from nothing, two of them killed, after which a pass with two workers differs from the pass with one |
| ParallelCatchup.PrefetchedBlocksAreLinked | btc_parser_app/rpc/ingest.py:439-458 | whatever the workers return, the prefetched blocks that are applied build on the position and on each other, and the loop stops at the first that does not |
| ParallelCatchup.PrefetchingIsIrrelevantIff | btc_parser_app/rpc/ingest.py:439-458 | prefetching the next height changes what is visited if and only if the position is not on the chain |
| SchemaBackfill.BackfillCompletesIff | btc_parser_app/rpc/ingest.py:349-367 | a pass that catches up re-exports each stale block of the chain once, no current one, and leaves nothing stale if and only if every stale block is on the active chain at or below the target height |
| Witnesses.StaleRun | btc_parser_app/rpc/reorg_state.py:268-319 | a killed pass on branch A and a pass on branch B that catches up and leaves a stale row |
| Unvisited.UnvisitedStays | btc_parser_app/rpc/ingest.py:434-506 | over every run none of whose passes visits a block its index row stays as it is, and so does a non-canonical flag |
| SchemaBackfill.IndexAfterExport | btc_parser_app/rpc/reorg_state.py:160-208 | afterwards exactly the stale blocks that were not visited are stale |
| MempoolLife.ReplayIsPointwise | btc_parser_app/rpc/mempool_watch_state.py:79-85 | the store develops one transaction at a time |
| MempoolLife.EventsAreLifecycles | btc_parser_app/rpc/mempool_watch.py:282-372 | a transaction's exported events are repeated lifecycles seen (confirmed unconfirmed)* with the proper ends, one of them open exactly while it is stored; confirmed if and only if it has a block if and only if the last event is `confirmed` |
| MempoolWatch.MempoolWatcher.LogHasWholeLives | btc_parser_app/rpc/mempool_watch.py:282-441 | between any two handlers of a process that loaded what the ones before it had saved, the log holds the events of the whole history, and those of each transaction are whole lifecycles, one of them open exactly while it is stored |
| MempoolLife.RestartContinuesLives | btc_parser_app/rpc/mempool_watch_state.py:53-65 | the same over a stop and a restart |
| MempoolLife.KillsAddOneEventEach | btc_parser_app/rpc/mempool_watch_state.py:53-85 | over any number of killed and restarted processes the events are those lifecycles plus at most one event at the end of each process, logged and not saved |
| MempoolLife.KilledAnywhere | btc_parser_app/rpc/mempool_watch_state.py:60-65 | a process that logs before it saves, killed anywhere, is such a session |
| MempoolLife.LawfulKeepsWellFormed | btc_parser_app/rpc/mempool_watch_state.py:30-45 | an entry has a block exactly while it is confirmed, whatever is recorded |
| MempoolLife.StepKeepsLogBeforeStore | btc_parser_app/rpc/mempool_watch.py:298-335 | with the event logged before the store is rewritten, at every kill point the store is the replay of the log or one event behind it |
| MempoolWatch.FlaggedTxStore.Put | btc_parser_app/rpc/mempool_watch_state.py:79-81 | the entry is set and the whole store rewritten |
| MempoolWatch.FlaggedTxStore.Remove | btc_parser_app/rpc/mempool_watch_state.py:83-85 | the entry is gone, and the store rewritten if there was one |
| MempoolWatch.MempoolWatcher.constructor | btc_parser_app/rpc/mempool_watch.py:248-263 | the store is what the file holds, nothing is checked |
| MempoolWatch.MempoolWatcher.OnAdded | btc_parser_app/rpc/mempool_watch.py:282-299 | `seen` once for a matching transaction that is not stored; checked unless the fetch failed |
| MempoolWatch.MempoolWatcher.OnLeftUnmined | btc_parser_app/rpc/mempool_watch.py:301-322 | `replaced` by the first other spender of its inputs, else `removed`; the entry is dropped; nothing if the query fails |
| MempoolWatch.MempoolWatcher.OnRemoved | btc_parser_app/rpc/mempool_watch.py:324-328 | the same for a tracked transaction of an R event, and it is no longer checked |
| MempoolWatch.MempoolWatcher.MarkConfirmed | btc_parser_app/rpc/mempool_watch.py:330-335 | exactly one `confirmed` event, with the block |
| MempoolWatch.MempoolWatcher.CheckConfirmedDepth | btc_parser_app/rpc/mempool_watch.py:350-372 | for each confirmed entry whose block was asked for: it stays if and only if the block has from 0 to forget_after_confirmations - 1 confirmations, is dropped without an event if and only if it has at least that many, and is back in the mempool with one `unconfirmed` event if and only if the answer is -1 |
| MempoolOutcomes.DepthIsSettled | btc_parser_app/rpc/mempool_watch.py:350-372 | the same for one transaction |
| MempoolWatch.MempoolWatcher.OnBlockConnected | btc_parser_app/rpc/mempool_watch.py:337-348 | for each transaction exactly: seen if it was missed and is in the block, confirmed if tracked and in the block, then the depth check; a prefix of that if a call fails |
| MempoolWatch.MempoolWatcher.FetchMany | btc_parser_app/rpc/mempool_watch.py:267-278 | the fetch of each transaction, None for a refusal, failing if any other failure occurs |
| MempoolWatch.MempoolWatcher.HandleEvents | btc_parser_app/rpc/mempool_watch.py:374-395 | for each transaction exactly the steps of the batch's events in order, and the sets in memory; nothing if the fetching fails, a prefix if a later call does; every step was warranted by an answer of the node: `seen` by a fetch with matches, `confirmed` by a block that lists the transaction, `unconfirmed` by -1 confirmations, the silent drop by at least forget_after_confirmations, `replaced` by the first other spender, `removed` by there being none |
| MempoolWatch.MempoolWatcher.HandleEvent | btc_parser_app/rpc/mempool_watch.py:380-395 | what one event that is handled completely has settled for each transaction, by the node's answers: seen if its fetch has matches, replaced or removed, seen late and confirmed if in the block, and the depth |
| MempoolOutcomes.NoticeIsSettled | btc_parser_app/rpc/mempool_watch.py:282-395 | the same for one transaction, and what every step of it is evidence of |
| MempoolOutcomes.BatchIsWarranted | btc_parser_app/rpc/mempool_watch.py:374-395 | every step of a batch was warranted by the node of one of its events |
| MempoolOutcomes.BatchRemembers | btc_parser_app/rpc/mempool_watch.py:374-395 | after a batch a transaction waits for its block exactly if it did or was announced and could not be fetched, and is checked exactly if it was or was announced and fetched, and in both cases nothing has removed or mined it since |
| MempoolWatch.MempoolWatcher.FindConfirmingBlock | btc_parser_app/rpc/mempool_watch.py:399-408 | the scan with its cache is the scan without |
| MempoolNode.FindIsHighest | btc_parser_app/rpc/mempool_watch.py:399-408 | the scan finds the highest block of its range that lists the transaction, and None only if none does |
| MempoolWatch.FirstOtherDiffers | btc_parser_app/rpc/mempool_watch.py:311-314 | a replacing transaction is one of the spenders and not the transaction itself; None exactly if there is none |
| MempoolWatch.MempoolWatcher.CheckNew | btc_parser_app/rpc/mempool_watch.py:419-430 | the snapshot's new transactions, chunk by chunk: checked exactly if fetched |
| MempoolWatch.MempoolWatcher.ResolveMissing | btc_parser_app/rpc/mempool_watch.py:432-439 | each tracked transaction missing from the snapshot is confirmed, replaced or removed |
| MempoolWatch.MempoolWatcher.Reconcile | btc_parser_app/rpc/mempool_watch.py:410-441 | after a completed reconcile on snapshot M: checked is a subset of M, M minus checked are exactly those whose fetch was refused, and an entry still in the mempool is in M or was turned unconfirmed by this call; each transaction is settled by the node's answers, a missing one being confirmed in the highest block of the scanned heights that lists it, if there is one, and replaced or removed otherwise; every step was warranted, also of a call that fails |
| MempoolOutcomes.ReconcileIsSettled | btc_parser_app/rpc/mempool_watch.py:399-441 | the same for one transaction |
| MempoolNode.StillInMempool | btc_parser_app/rpc/mempool_watch.py:432-441 | the last of these, for one transaction |
| Backfill.PriceFiles.Run | btc_parser_app/api/price_gap_backfill.py:304-469 | the loop performs exactly the specified durable steps and exits as specified, for any refusal, any flush times and an interrupt anywhere, also between the append and the reset of a flush |
| Backfill.PriceFiles.Flush | btc_parser_app/api/price_gap_backfill.py:385-391 | the staged rows first, then the checkpoint |
| Backfill.WalkAddsOnce | btc_parser_app/api/price_gap_backfill.py:430-439 | among the rows of the first n minutes no date is added twice, and every answered minute's date is there |
| Backfill.RunIsSafe | btc_parser_app/api/price_gap_backfill.py:379-458 | killed anywhere a run leaves, but for repeated rows, the rows of the first n minutes and a checkpoint not beyond them; finished, those of all minutes |
| Backfill.SeriesCovers | btc_parser_app/api/price_gap_backfill.py:126-141 | once a run of a series over one range finishes, the date of every answered minute start, start + 60, ... up to the end is there, or, if the series began at a checkpoint of that same range, of every one from the checkpoint on; and every row added is the answer for such a minute, with its date and both prices |
| Backfill.RunIdlesIff | btc_parser_app/api/price_gap_backfill.py:326-342 | a run does nothing if and only if the range is empty or a checkpoint of that range lies beyond its end |
| Backfill.RunStopsAt | btc_parser_app/api/price_gap_backfill.py:402-427 | a run that is not interrupted stops at the first minute that is rate limited, fails or is beyond the end, exits accordingly, and saves that minute as its checkpoint last |
| Backfill.RunAppendsAnswers | btc_parser_app/api/price_gap_backfill.py:379-445 | each append has at most 1000 rows, all of them answers |
| Backfill.AddsTwiceIff | btc_parser_app/api/price_gap_backfill.py:379-458 | from any files a run adds a date twice if and only if it is interrupted in the flush of a step it gets to, between the append and the reset, with a row staged, and not killed before the second append |
| Backfill.SeriesAddsTwiceIff | btc_parser_app/api/price_gap_backfill.py:379-458 | a series of runs adds a date twice if and only if one of its runs does so |
| Backfill.ResumedEqualsOneRun | btc_parser_app/api/price_gap_backfill.py:304-469 | any series of killed, interrupted and refused runs and then one that finishes leaves, but for repeated rows, what one uninterrupted run leaves, and the same position; row for row, with no date added twice, if and only if no run of the series repeats rows |
| Witnesses.RepeatedPriceRun | btc_parser_app/api/price_gap_backfill.py:385-391 | a run that appends a row twice |
| RateLimiter.NewTokenBucket | btc_parser_app/api/rate_limiter.py:16-26 | rejects a rate or size out of range, else a full bucket |
| RateLimiter.TokenBucket.TryAcquire | btc_parser_app/api/rate_limiter.py:44-49 | a token is taken if there is one after the refill, else the wait is the time until there is |
| RateLimiter.TokenBucket.Acquire | btc_parser_app/api/rate_limiter.py:35-55 | the retry loop, with other callers in between, is the specified sequence of attempts; false exactly when the stop event was set while waiting |
| RateLimiter.WindowBound | btc_parser_app/api/rate_limiter.py:28-49 | however callers interleave and whatever the clock does, at most bucket_size + rate * (b - a) attempts succeed from a to b, and tokens stay between 0 and the capacity |
| RateLimiter.ServesIff | btc_parser_app/api/rate_limiter.py:28-49 | from any bucket, n attempts at one time all succeed if and only if n is at most the capacity and at most tokens + elapsed * rate |
| RateLimiter.IdleBucketServes | btc_parser_app/api/rate_limiter.py:28-49 | a bucket left alone for capacity / rate seconds serves its whole capacity at once and no more |
| RateLimiter.FullBucketServes | btc_parser_app/api/rate_limiter.py:43-48 | the burst part of the bound is attained |
| RateLimiter.WaitIsExact | btc_parser_app/api/rate_limiter.py:49-55 | without a competitor the next attempt succeeds if and only if the computed time has passed |
| RateLimiter.AloneSecondRoundSucceeds | btc_parser_app/api/rate_limiter.py:43-55 | alone, a caller that waits that long has its token in the second round |
| BlockParser.AggregateInputs | btc_parser_app/rpc/block_parser.py:196-267 | one detail row for each input, and counters that are the sums over these rows |
| BlockParser.AggregateOutputs | btc_parser_app/rpc/block_parser.py:284-330 | the same for the outputs |
| BlockParser.AggregateTransaction | btc_parser_app/rpc/block_parser.py:157-462 | every counter of the transaction row is the count over its detail rows; the fee is that of the node, or derived exactly if every input value is known |
| BlockParser.AggregateBlock | btc_parser_app/rpc/block_parser.py:482-708 | every total and script type total of the block row is the count over the exported rows, and over the inputs and outputs of the block itself: the total of a type is the number of outputs, or inputs with a prevout, that have its name; the fees are the sum of each regular transaction's fee as the node gave it or as spent minus paid |
| BlockParser.TypesAreNamed | btc_parser_app/rpc/block_parser.py:50-94 | with the table of the twelve names: the type of a name is the one it names, and every other name and a missing one is Other |
| BlockParser.RegularSums | btc_parser_app/rpc/block_parser.py:517-519 | leaving the coinbase out transaction by transaction or row by row is the same |
| BlockParser.DerivedFee | btc_parser_app/rpc/block_parser.py:333-352 | a derived fee is inputs minus outputs of a transaction with all values known |

## Left out

- RPC, HTTP, cookies, retries, sockets, signals, logging, argument and configuration parsing: the node is an oracle whose calls may fail.
- polars frames, type inference and CSV bytes: a file is a sequence of rows and its size an arbitrary function of them (`PartFiles.PartConfig.bytes`).
- fsync and torn writes inside one durable step; dropping a torn last line when reading (`btc_parser_app/common/csv_writer.py:76-100`).
- Part numbers above 999999, which the file name pattern does not match.
- ReorgState.IndexStore.Flush: the parts of index.csv and the roll to a new part for size or an old header; index.csv is one sequence of rows.
- The order of equal rows in the two scans that pick one (the highest block row when seeding, the lowest stale row): any choice is covered (`Pass.Picks`).
- Deletions by the consumer between the start of a pass and the scan that seeds the index count as made before that pass.
- Prefetch.ParsedBlocks: the worker's own exception for a block of the wrong height (`btc_parser_app/rpc/catchup.py:128-134`) is not modelled; a block is served at its own height.
- Prefetch.ParsedBlocks.CompleteAny: pool processes are not modelled; a future is a result that is available in any order.
- ReorgState.BlockStatusStore.Flush: the sorting of the rows of block_status.csv.
- Ingest.Ingester.EnterLoop: a position without a hash at height 0 or above, which the code would write and the model does not; from an index closed under predecessors there is none (`CrashSafety.RewindKnown`).
- Ingest.Ingester.RecoverFromReorg: the file name and time stamp of the reorg log.
- MempoolWatch.MempoolWatcher: FlaggedTx entries are values replaced in the store, where the source changes one shared object; the time stamps, fees, sizes, source and detail columns of the exported rows.
- MempoolWatch.MempoolWatcher.HandleEvents: the node may change between the events of a batch but not within one handler, where no question is asked twice for one transaction.
- Matching of addresses against the sanctions lists and the fallback lookups for prevouts (`match_tx`): a fetch yields the matches.
- The outer loop of mempool-watch: when a reconcile is due, reloading the list.
- Backfill.PriceFiles.Run: pacing, progress logging and the advisory price validator.
- RateLimiter.TokenBucket: floating point rounding; reals are exact.
- BlockParser.AggregateInputs: input ages, coin days, generated inputs and the replace-by-fee flags; values are in satoshis and scripts and witness items are given by their lengths.
- BlockParser.AggregateOutputs: addresses, zero-value counts and the least, greatest and average value.
- BlockParser.AggregateTransaction: averages, fee rates and the flags of the transaction row beyond the counts.
- BlockParser.AggregateBlock: averages, medians, maxima, fee rates, sizes and the numbers of segwit, taproot, replace-by-fee and OP_RETURN transactions.
- The stale-block registry, mining pool data, chain header fields, block subsidy, Splunk and Cribl generators and shell scripts: one branch or text generation each.
