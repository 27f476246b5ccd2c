# Verified model of a Muta node

Muta is a blockchain framework in Rust. This project models its hardest parts in Dafny and proves
what they promise. Five cores are covered, and two smaller pieces:

1. **The commit/execute pipeline.** A header confirms execution results late: a node commits headers
   while its execution daemon is some blocks behind, and a status object carries four lists of results
   that were computed but not yet confirmed. `Blocks`, `ConsensusStatus`, `CommitPipeline`, `Nodes`,
   `Network`, `Progress`, `Stalls`, `Restarts` and `Recovery` model the status, one node with its commit,
   daemon, synchronization and restart tasks interleaved in atomic steps, and a network of such nodes.
   `HeaderChecks` is what the checks let through of headers of any kind. The reference is plain sequential execution of the decided blocks. Abandoned commits, failed executions
   and crashes at any point are steps of the model.
2. **The mempool.** `TxMap` is the 16-bucket map, `TxCache` the two bounded queues beside it, run
   alone. `PoolRuns` is the interleaving of packaging with any number of inserters, one atomic access
   at a time; `PoolAlone` is the same undisturbed, `PoolPackages` what a package then contains,
   `PoolTimes` which transactions are taken and kept by their timeouts and marks, and `PoolLink` the
   proof that this pool and `TxCache` are one. `PoolLimit` puts the limit on the pool's
   size before it, with the keys counted bucket by bucket while others insert; `PoolRoom` and
   `PoolOverflow` are what it does and does not prevent.
3. **The service executor.** `ServiceState` and `StateMap` are the trie, stash and cache of each
   service; `Executor` runs hooks, calls and blocks over them in place; `BlockSpec` is the plain fold
   it is proved equal to, and `TxAnatomy` reads a transaction's outcome off the effects of its hooks and
   its call one by one. Services are arbitrary functions that may write, charge, emit, fail or panic,
   and have a memory of any kind that outlives every undoing. `StoreMap`, `StoreContents` and
   `DefaultStoreMap` are the memory services really have: maps in the state whose key lists are read
   once and then answered from memory. `StoreRuns` compares whole runs of them with a plain map,
   `StoreNames` has the names they use. `Traces` and `StoreTraces` say what a failing call leaves there.
4. **Multi-signature accounts.** `Signatures` is verification by weight over a graph of accounts that
   may be cyclic, `SignatureTrees` the evidence that decides it, `MultiSig` the account-changing calls
   as functions, `MultiSigCalls` what each does to its account and how it is answered,
   `MultiSigService` the service with its in-place permission object and machine integers.
5. **The asset ledger.** `Asset` and `AssetService` are the ledger and its service, `Allowances` the
   bookkeeping law of grants over runs, `Payments` what calls and runs do to every balance, `AssetOnChain` the ledger over chains of blocks,
   `AssetHost` the asset service in the executor, with its store map, and `AssetChain` a chain that
   runs it alone.
6. `Quorum` is the weight check of block proofs; `Keys` and `Storage` are the storage keys and the
   batch read by prefix scan.

Code that changes state in place is a class whose methods are proved against functions on values, and
the properties are proved of those functions. Hashing, signatures, tries, codecs and what services do
are parameters; each result states what it needs of them. Where names are digests, that is that the
digests of those keys and accounts that are in use differ.

Where the code does not do what one would expect, the model follows the code and says exactly when:

- A failing call's writes and events are undone (`Traces.FailedCallsWriteNothing`), its service's
  memory is not. It leaves no trace in the rest of the block if and only if the key lists and the length
  of its store map that it goes by at its end are those it went by at its start
  (`StoreTraces.FailedCallTraceIff`). That they are in the state as it found them means the same only
  where memory and state were in step (`StoreTraces.FailedCallInStep`), and not after an earlier trace
  (`StoreTraces.TraceUponTrace`). `StoreTraces.FailedInsertShows` and `AssetHost.UndoneCreationShows`
  are instances of traces.
- A store map keeps values, key lists and length side by side. It answers as a plain map in every run
  over any number of blocks if and only if no key is spelled like the suffix of the length or of a
  bucket that has keys (`StoreNames.PlainIffNoneCollides`); otherwise the next block
  takes a value for a length or a key list (`StoreNames.LenKeyOverwrites`,
  `StoreNames.BucketKeyOverwrites`). Keys of one length other than 8 and 16 bytes never collide
  (`StoreNames.FixedLengthIsOk`), so the asset service's do not (`AssetHost.SourceNamesOk`). And values
  must not be empty: such a key is there without a value, and removing it is a panic
  (`StoreContents.InsertsAsMap`, `StoreContents.EmptyValueIsLost`).
- A refusal by an after-hook reverts a cache that is already empty, so it drops events and keeps every
  write (`BlockSpec.ObjectionDropsOnlyEvents`).
- `transfer_from` writes the reduced allowance before the transfer can fail. The books of a grant
  balance because the executor rolls a failing transaction back. Where a failure is ignored they are
  off by exactly the spendings lost that way (`Allowances.RawBooksAddUp`); one call keeps them if and
  only if the condition of `Allowances.RawBooksBalanceIff` holds, and
  `Allowances.RawSpendingLosesGrant` is an instance where it does not.
- The proof's weight check counts a repeated voter each time. A list weighs what its voters weigh if
  and only if no positive weight repeats (`Quorum.WeighsAsSetIff`), and then quorums intersect; with
  repetitions they need not (`Quorum.RepetitionsNeedNotIntersect`).
- An idle node that executed a block whose commit was abandoned cannot proceed until it restarts. For
  nodes none of whose executions failed this is the only such case (`Progress.CanProceedIff`), and it
  is reached (`Progress.AheadIsReached`). A node that lost an execution executes nothing more
  (`Progress.GapUntilDown`), but may still commit. Whatever failed before, an idle node can commit the
  next decided block without being started again if and only if it has not executed it already and
  every block whose result its header confirms is executed or pending (`Stalls.ProceedsIff`).
- A restart always helps: whatever state a node is in, after going down once and starting again it is
  idle and has executed exactly what it had stored (`Restarts.RestartHeals`), and then gets the next
  decided block (`Restarts.OneRestartSuffices`).
- The check of a proposed header compares three lists and a state root one by one. Headers built by
  nodes pass and commit as they should (`CommitPipeline.CheckPassesIffExecuted`). For headers of any
  kind, one that passed commits if and only if its lists have one length
  (`HeaderChecks.CheckedCommitsIff`), and the node then goes on from the state it executed if and only
  if results are left over or the header names that state (`HeaderChecks.CheckedKeepsLatestIff`).
- An owner may set a threshold to zero; the account is then verified without signatures
  (`MultiSig.ZeroThresholdVerifies`). No other call makes a threshold zero, and without such an account
  in reach a signature is needed (`Signatures.NeedsASignature`): some account verifies unsigned if and
  only if some account with members has threshold zero (`Signatures.UnsignedIffOpen`).
- The limit on the pool's size is checked before a key is put into the map, so the map can outgrow it,
  and with it the queues, which have four times as many places. Nothing is dropped and no transaction
  is packaged twice, in any interleaving, if and only if at most three times the pool's size and one
  insertions are under way at once (`PoolOverflow.NoneTwiceIff`). With one more, a transaction can be
  packaged, dropped because the other queue is full, inserted again and packaged again
  (`PoolOverflow.TwicePackaged`); it is packaged at most once more than it was dropped
  (`PoolPackages.PackagedAtMost`).
- With a limit of zero transactions, packaging still proposes one (`TxCache.TxCache.Package`).

## Model

| member | source | states |
|---|---|---|
| `ConsensusStatus.CheckListRoots` | core/consensus/src/util.rs:177-183 | the zip-and-compare test holds if and only if the header's list is a prefix of the cached one |
| `ConsensusStatus.StatusAgent.UpdateByExecuted` | core/consensus/src/status.rs:107-123 | an old result changes nothing, the next one extends all four lists, any other is a panic that leaves the status as it was |
| `ConsensusStatus.StatusAgent.UpdateByCommitted` | core/consensus/src/status.rs:125-145 | panics exactly when the height is not next or the header is not a prefix of the pending results; otherwise drops exactly the confirmed ones |
| `ConsensusStatus.StatusAgent.SplitOff` | core/consensus/src/status.rs:169-198 | panics exactly when the header's lists disagree in length, are no prefixes, or outrun the state roots; otherwise removes that many from each list |
| `ConsensusStatus.StatusAgent.Replace` | core/consensus/src/status.rs:43-58 | the shared status becomes the given one |
| `CommitPipeline.LatestRootIsExecuted` | core/consensus/src/status.rs:100-105 | the latest state root is the state after the executed blocks of plain execution, however many headers are committed |
| `CommitPipeline.BootStatus` | core/run/src/lib.rs:396-426 | the status rebuilt from a stored header is the one defined by plain execution at that header's execution height |
| `CommitPipeline.ExecuteNext` | core/consensus/src/status.rs:107-123 | reporting the next block moves from the status defined for e executed blocks to the one for e+1 |
| `CommitPipeline.ExecuteAgain` | core/consensus/src/status.rs:107-123 | reporting an executed block again changes nothing, whatever state it ran on |
| `CommitPipeline.CommitNext` | core/consensus/src/status.rs:125-198 | committing the next decided header succeeds if and only if the node executed at least what it confirms, and then gives the status defined for one more header |
| `CommitPipeline.CheckPassesIffExecuted` | core/consensus/src/engine.rs:654-705 | a header built on one node passes the root checks of another at the same committed block if and only if the checker executed at least as many blocks |
| `CommitPipeline.ProposalExtends` | core/consensus/src/engine.rs:107-126 | a block built on the status of an up-to-date node extends any valid chain to a valid chain |
| `CommitPipeline.HeaderBounds` | core/consensus/src/engine.rs:107-126 | on a valid chain execution heights never fall, stay below the block's height and name the state they claim |
| `HeaderChecks.CheckIff` | core/consensus/src/engine.rs:654-705 | any header whatever passes the check if and only if it names the committed block, each of its lists holds the true results of the blocks that come next, as far as it goes, and its state is the one after some block executed since |
| `HeaderChecks.CommitIff` | core/consensus/src/status.rs:125-198 | any header commits if and only if it has the next height and three true lists of one length; then exactly the confirmed results are dropped and its state is taken over |
| `HeaderChecks.CheckedCommitsIff` | core/consensus/src/engine.rs:654-705 | a header that passed the check commits if and only if its lists have one length |
| `HeaderChecks.CheckedKeepsLatestIff` | core/consensus/src/status.rs:100-145 | after any commit the latest state is the executed one if and only if results are left over or the header names that state |
| `Nodes.OldestIsNext` | core/consensus/src/adapter.rs:902-972 | while no execution failed, the oldest pending block is the next to execute or an executed one |
| `Nodes.NodeStepInv` | core/consensus/src/engine.rs:233-360 | every atomic step of commit, daemon, synchronization, crash and restart keeps the status equal to the one plain execution defines, the queue ordered and covering, and each task's private data exact |
| `Network.RunInv` | core/consensus/src/engine.rs:68-360 | every run of every network keeps a valid chain, valid proposals and the node invariant at all nodes |
| `Network.PendingListsAreExact` | core/consensus/src/status.rs:100-198 | in every reachable state of every node the four pending lists are exactly the results of heights above the committed header's execution height up to the executed one, and the latest root is the state after them, so no commit changes it |
| `Network.Confluence` | core/consensus/src/synchronization.rs:298-342 | any two runs that decided the same blocks leave any two nodes with equal heights in equal status, whether they came by consensus, synchronization or restart |
| `Network.CommitNeverPanics` | core/consensus/src/status.rs:125-198 | in every reachable state a commit about to be recorded, by consensus or synchronization, meets no panic and leaves the executed height at most the committed one |
| `Network.DaemonNeverPanics` | core/consensus/src/adapter.rs:926-972 | the daemon's report never meets the height assertion unless an execution failed before |
| `Network.CheckStaysPassed` | core/consensus/src/engine.rs:654-705 | a header that passed the checks still passes after further executions, and committing it does not panic |
| `Network.BacklogIsBounded` | core/consensus/src/adapter.rs:823-857 | a running node is never more than the queue's capacity plus one block behind unless an execution failed |
| `Network.AheadUntilRestart` | core/consensus/src/engine.rs:245-267 | an idle node that executed the next block without committing it keeps exactly its status in every run until it crashes |
| `Progress.CatchUp` | core/consensus/src/adapter.rs:902-972 | an idle node none of whose executions failed gets its executed height up to the committed one by its own daemon |
| `Progress.Proceed` | core/consensus/src/synchronization.rs:144-342 | if it has not executed ahead, it then gets the next decided block by synchronization |
| `Progress.CanProceedIff` | core/consensus/src/engine.rs:245-267 | such a node can commit the next decided block in some run without a restart if and only if it has not already executed it |
| `Progress.AheadIsReached` | core/consensus/src/engine.rs:233-360 | a run from start-up in which a commit is abandoned and its block executed nevertheless |
| `Progress.FailureLeavesGap` | core/consensus/src/adapter.rs:902-924 | a failed execution of the next block leaves it committed and no longer pending |
| `Progress.GapUntilDown` | core/consensus/src/synchronization.rs:442-454 | such a node executes nothing more and never gets past waiting for synchronization, in any run, while it is up |
| `Stalls.ProceedsIff` | core/consensus/src/engine.rs:233-360 | any idle node, whatever was abandoned or failed before, can commit the next decided block in some run without being started again if and only if it has not executed it already and every block whose result its header confirms is executed or pending |
| `Stalls.StuckUntilBoot` | core/consensus/src/status.rs:107-123 | otherwise its committed height stays the same in every run in which it is not started again |
| `Restarts.RecoverAll` | core/run/src/lib.rs:501-526 | recovery executes every stored block that is not executed, one step each, and ends with equal heights |
| `Restarts.RestartHeals` | core/run/src/lib.rs:396-526 | in every run and whatever state a node is in, after going down once and starting again it is idle and has executed exactly what it had stored |
| `Restarts.OneRestartSuffices` | core/run/src/lib.rs:396-526 | so every node can get the next decided block with one restart at most |
| `Recovery.ExecBlock` | core/consensus/src/synchronization.rs:412-440 | runs the block on the latest root and reports it, panicking exactly when the report does |
| `Recovery.Restart` | core/run/src/lib.rs:396-526 | re-execution ends in the status of plain execution with both heights equal, and fails exactly when a block it needs is missing, lacks transactions or fails to execute |
| `Recovery.CommitBlock` | core/consensus/src/synchronization.rs:298-342 | executing then committing a decided block never panics and moves from one exact status to the next |
| `Recovery.StartSync` | core/consensus/src/synchronization.rs:144-295 | synchronization reaches its goal of at most fifty blocks or stops at the first height that is not delivered or whose block does not verify or execute, and the published status is exact wherever it stops |
| `TxMap.Map.Insert` | core/mempool/src/map.rs:32-35 | never overwrites: a known hash is answered with its value and changes nothing |
| `TxMap.Map.ContainsKey` | core/mempool/src/map.rs:37-40 | agrees with the one flat map that the buckets make up |
| `TxMap.Map.Get` | core/mempool/src/map.rs:42-45 | answers as the flat map does |
| `TxMap.Map.Remove` | core/mempool/src/map.rs:47-50 | removes one key of the flat map |
| `TxMap.Map.RemoveBatch` | core/mempool/src/map.rs:52-70 | removal grouped by bucket, in any order of buckets, removes exactly the given hashes from the flat map |
| `TxMap.Map.RemoveFromBucket` | core/mempool/src/map.rs:137-142 | one bucket's removals, one by one, remove exactly those hashes from the flat map |
| `TxMap.RemoveEachIsRemoveAll` | core/mempool/src/map.rs:137-142 | removing hashes one after another, repetitions included, equals removing their set |
| `TxMap.Group` | core/mempool/src/map.rs:52-62 | grouping puts every hash into its own bucket's group and nothing else |
| `TxMap.Map.Len` | core/mempool/src/map.rs:72-78 | the sum of bucket sizes is the size of the flat map |
| `TxMap.Map.Clear` | core/mempool/src/map.rs:80-84 | the flat map becomes empty |
| `TxMap.MergeSize` | core/mempool/src/map.rs:72-78 | buckets hold disjoint keys, so their sizes add up |
| `TxCache.Pick` | core/mempool/src/tx_cache.rs:224-240 | the stage and counter machine picks the next entry exactly as the declarative package asks |
| `TxCache.TurnWhileOrdering` | core/mempool/src/tx_cache.rs:224-240 | while there is room to order, each live entry is ordered, and the first one beyond is proposed |
| `TxCache.TurnWhileProposing` | core/mempool/src/tx_cache.rs:224-240 | after that only unproposed entries are taken, up to the limit |
| `TxCache.TxCache.Package` | core/mempool/src/tx_cache.rs:185-256 | order is the first n live entries; proposals are the next live entry whatever its mark and then the first n-1 unproposed ones. Every hash named is that of a queued, unremoved entry whose timeout lies above the height and not above the limit, and with the other queue empty those entries and no others stay queued; the map loses exactly timed-out entries and those the other queue has no room for |
| `TxCache.TxCache.Insert` | core/mempool/src/tx_cache.rs:294-322 | accepts exactly unknown hashes while there is room, and a refusal leaves queue and map as they were |
| `TxCache.TxCache.ProcessOmissionTxs` | core/mempool/src/tx_cache.rs:324-345 | empties the retired queue behind the incumbent one as far as there is room and deletes the rest from the map |
| `TxCache.TxCache.FlushIncumbentQueue` | core/mempool/src/tx_cache.rs:347-384 | the live entries move over in order and the map loses exactly timed-out and refused ones; with the other queue empty the queue then holds the unremoved entries whose timeout lies above the height and not above the limit, and no others |
| `TxCache.TxCache.Flush` | core/mempool/src/tx_cache.rs:173-183 | flushed and timed-out entries leave queue and map, all others stay in order: with the other queue empty, exactly those not flushed whose timeout lies above the height and not above the limit |
| `TxCache.TxCache.MarkRemoved` | core/mempool/src/tx_cache.rs:173-183 | marks exactly the queued entries whose hash is given |
| `TxCache.Partition` | core/mempool/src/tx_cache.rs:200-214 | every queued entry is exactly one of removed, live, which is that its timeout lies above the height and not above the limit, or timed out; and live ones have different hashes |
| `TxCache.PackagedOnce` | core/mempool/src/tx_cache.rs:185-256 | a package names live transactions only and none twice |
| `TxCache.InsertKeepsOwned` | core/mempool/src/tx_cache.rs:294-322 | after an accepted insertion the map's keys are still exactly the hashes of unremoved entries, each queued once |
| `TxCache.PackageKeepsOwned` | core/mempool/src/tx_cache.rs:185-256 | packaging with the other queue empty refuses nothing and keeps queue and map in agreement |
| `TxCache.FlushKeepsOwned` | core/mempool/src/tx_cache.rs:173-183 | so does flushing, after which no flushed hash is in the map |
| `TxCache.LiveIff` | core/mempool/src/tx_cache.rs:68-72 | an entry is live if and only if it was not removed and its timeout lies above the height and not above the limit; with any other timeout it is timed out |
| `TxCache.PackagedInTime` | core/mempool/src/tx_cache.rs:185-256 | each hash of a package is that of a queued transaction that was not removed and is in time |
| `TxCache.MappedInTime` | core/mempool/src/tx_cache.rs:242-256 | the map keeps a hash exactly if its transaction is in time |
| `PoolTimes.PackageTakes` | core/mempool/src/tx_cache.rs:224-240 | the first n live transactions are ordered; of the rest the first is proposed, and with it as many unproposed ones as there are, up to n in all |
| `PoolRuns.RunInv` | core/mempool/src/tx_cache.rs:185-256 | in every interleaving every key of the map is accounted for exactly once, by a queue entry, the packager or an insertion under way; the counter counts the inserters; only while roles settle may one target the retired queue |
| `PoolRuns.PackageEndsClean` | core/mempool/src/tx_cache.rs:245-256 | whenever no package runs, the retired queue is empty, no inserter targets it, and keys are exactly the queued hashes plus insertions under way |
| `PoolRuns.AcceptedIsKept` | core/mempool/src/tx_cache.rs:294-345 | an accepted transaction is queued exactly once with its key in the map after any further interleaving, unless it times out, finds a full queue or is flushed |
| `PoolAlone.PackageAlone` | core/mempool/src/tx_cache.rs:185-256 | step by step and undisturbed, a package always ends, and leaves queues and map exactly as flushing no hash would: live entries in order, timed-out ones gone |
| `PoolLink.FlushIsFlushStep` | core/mempool/src/tx_cache.rs:173-183 | the queue and the keys that the flush of `TxCache` leaves are those the flush step of the interleaving leaves, and with no hashes those a package leaves |
| `PoolPackages.PackagedAtMost` | core/mempool/src/tx_cache.rs:201-240 | in every interleaving with inserters a hash is packaged at most once more than it was dropped in that package |
| `PoolTimes.PickedInTime` | core/mempool/src/tx_cache.rs:201-240 | in every interleaving a step that lengthens the package adds one hash, that of the transaction in front of the queue, which is in time |
| `PoolTimes.FlushLeaves` | core/mempool/src/tx_cache.rs:347-384 | a flush keeps exactly the transactions it does not name that are in time, and the map keeps their hashes and no others |
| `PoolTimes.PackageLeaves` | core/mempool/src/tx_cache.rs:185-256 | an undisturbed package ends and keeps exactly the transactions in time, in the queue and in the map |
| `PoolRoom.FewKeysRoomy` | core/mempool/src/tx_cache.rs:213-222 | while the map holds no more keys than a queue has places, whoever is about to push, packager or inserter, finds room |
| `PoolLimit.KeysBounded` | core/mempool/src/tx_cache.rs:268-273 | with the keys counted bucket by bucket while others insert and delete, the map never holds more than the limit less one, the insertions under way at once and the unchecked ones together |
| `PoolLimit.NothingDropped` | core/mempool/src/lib.rs:106-148 | in every run with few enough insertions at once nothing is dropped, no push fails and no transaction is packaged twice |
| `PoolLimit.AcceptedStays` | core/mempool/src/tx_cache.rs:294-345 | there a transaction whose insertion has chosen its queue is queued exactly once with its key in the map after any further interleaving, unless it times out or is flushed |
| `PoolOverflow.NoneTwiceIff` | core/mempool/src/lib.rs:116-148 | for a pool of size p: at most c insertions under way at once keep every run from dropping, and from packaging twice, if and only if c is at most 3p + 1 |
| `PoolOverflow.TwicePackaged` | core/mempool/src/tx_cache.rs:213-240 | an instance for every pool size: with 3p + 2 insertions under way at once a transaction is packaged, dropped, inserted again and packaged again |
| `PoolRuns.FlushInv` | core/mempool/src/lib.rs:116-148 | a flush, made while no inserter is under way, keeps the accounting |
| `PoolRuns.RunKeeps` | core/mempool/src/tx_cache.rs:347-401 | an entry is lost in a run only at a step where it timed out, found no room or was flushed |
| `ServiceState.GeneralServiceState.Get` | framework/src/binding/state/mod.rs:36-59 | reads see cache over stash over trie, an empty value meaning absent |
| `ServiceState.GeneralServiceState.StashCache` | framework/src/binding/state/mod.rs:119-125 | draining in any order puts the cache over the stash |
| `ServiceState.GeneralServiceState.Commit` | framework/src/binding/state/mod.rs:128-135 | draining in any order leaves in the trie what trie and stash showed together |
| `ServiceState.WriteShows` | protocol/src/traits/binding.rs:42-71 | writing on top of the layers shows as writing to the visible state |
| `ServiceState.StashShows` | protocol/src/traits/binding.rs:42-71 | stashing changes nothing that is visible |
| `ServiceState.TopmostShows` | framework/src/binding/state/mod.rs:36-59 | a reader sees what the topmost layer holding the key has, and nothing if that is the empty value |
| `StateMap.WriteWorldAt` | protocol/src/traits/binding.rs:42-71 | a write shows at its service and key and nowhere else; writing the empty value deletes |
| `StateMap.ServiceStateMap.Stash` | framework/src/executor/mod.rs:95-101 | stashes the cache of every service |
| `StateMap.ServiceStateMap.RevertCache` | framework/src/executor/mod.rs:103-109 | reverts the cache of every service |
| `StateMap.ServiceStateMap.Commit` | framework/src/executor/mod.rs:281-288 | with nothing cached, every trie then holds what its service saw |
| `StateMap.RevertUndoes` | framework/src/executor/mod.rs:103-109 | reverting undoes all writes, to any services, made since the caches were empty |
| `BlockSpec.TxCyclesBounded` | protocol/src/types/service_context.rs:104-111 | across hooks and call a transaction never uses more cycles than its limit |
| `BlockSpec.ReceiptsMatch` | framework/src/executor/mod.rs:470-500 | receipts answer the transactions one to one, in order and within their limits; the fields of each are `TxAnatomy.ReceiptsAre` |
| `TxAnatomy.HooksAre` | framework/src/executor/mod.rs:150-180 | hooks fail if and only if one of them panics; otherwise they end in the state their effects lead to, and object if and only if some hook answered with an error |
| `TxAnatomy.RefusedIsSkipped` | framework/src/executor/mod.rs:399-405 | if any before-hook answers with an error, the call is not made: the code says so, and state, events, cycles and memory have nothing of it |
| `TxAnatomy.UnknownIsSkipped` | framework/src/executor/mod.rs:439-456 | likewise for a service that does not exist |
| `TxAnatomy.CallIsMade` | framework/src/executor/mod.rs:399-434 | otherwise the call is made: its cycles and memory are kept always, its writes and events if and only if it succeeds; an objecting after-hook leaves the events from before the call, exactly, and all else |
| `TxAnatomy.PanicFails` | framework/src/executor/mod.rs:150-180 | a before-hook that panics fails the transaction |
| `TxAnatomy.ChargedIs` | protocol/src/types/service_context.rs:104-111 | requests for cycles that fit together are all charged; otherwise each is charged if it fits behind what was charged before it |
| `TxAnatomy.ReceiptsAre` | framework/src/executor/mod.rs:470-500 | each receipt has the hash, service and method of its transaction, and the code, events and cycles the transaction came to where it ran |
| `TxAnatomy.TotalAddsUp` | framework/src/executor/mod.rs:507-513 | the total of cycles is the sum over the receipts |
| `Traces.FailedCallsWriteNothing` | framework/src/executor/mod.rs:421-425 | at every point of every chain of blocks, receipts, state, memory and panics are those of the services whose failing calls write and emit nothing |
| `Traces.FailedCallsLeaveNoTrace` | framework/src/executor/mod.rs:421-425 | transactions whose failing calls leave the services' memory looking as it was end as if those calls had done nothing but use cycles: no write, event or memory of them reaches a receipt or the state |
| `Traces.TidyBlockLeavesNoTrace` | framework/src/executor/mod.rs:462-521 | the same for whole blocks, hooks included |
| `Traces.TxsAlike` | framework/src/executor/mod.rs:265-269 | memories that look the same to the services give the same receipts and state in whatever follows |
| `DefaultStoreMap.DefaultStoreMap.InsertValue` | framework/src/binding/store/map.rs:49-64 | a new key is appended to its bucket in memory and state, a known one only gets its value; in place, exactly as specified |
| `DefaultStoreMap.DefaultStoreMap.RemoveValue` | framework/src/binding/store/map.rs:80-102 | the first match leaves its bucket in memory and state, an unknown key changes nothing, a known key without a value is a panic |
| `DefaultStoreMap.DefaultStoreMap.ContainsKey` | framework/src/binding/store/map.rs:105-119 | a bucket is read from the state once, and answered from memory from then on |
| `DefaultStoreMap.DefaultStoreMap.GetValue` | framework/src/binding/store/map.rs:66-78 | values are looked up in the state, for keys the memory knows |
| `DefaultStoreMap.RemoveItem` | framework/src/binding/store/mod.rs:163-177 | the search loop cuts out the first match and nothing else |
| `StoreContents.ReadsAsMap` | framework/src/binding/store/map.rs:66-119 | with lists and values in order, a store map answers contains, get and len as one plain map |
| `StoreContents.InsertsAsMap` | framework/src/binding/store/map.rs:49-64 | inserting a key is updating that map and keeps lists, values and length in order, if and only if the value is not empty |
| `StoreContents.EmptyValueIsLost` | framework/src/binding/store/map.rs:80-102 | after an empty value is inserted, under any names and in any state, the key is contained, has no value, and removing it is a panic |
| `StoreContents.RemovesAsMap` | framework/src/binding/store/map.rs:80-102 | removing is deleting from that map, with the value as answer and never a panic |
| `StoreContents.CallStaysInStep` | framework/src/binding/store/map.rs:49-119 | a call whose writes are kept leaves memory and state in step |
| `StoreRuns.RunsAsMap` | framework/src/binding/store/map.rs:31-119 | every run of operations, over any number of blocks that each build the map again, answers what a plain map answers, never panics and ends with the plain map's contents |
| `StoreRuns.PlainIff` | framework/src/binding/store/map.rs:121-136 | that holds of every run if and only if the names of values differ from one another and from those of lists and length |
| `StoreNames.PlainIffNoneCollides` | framework/src/binding/store/map.rs:121-136 | with the names in use, if and only if no key is spelled like the suffix of the length or of a bucket |
| `StoreNames.NamesDifferIff` | framework/src/binding/store/map.rs:121-136 | the names in use differ if and only if no key is spelled so |
| `StoreNames.NamesAreShort` | framework/src/binding/store/map.rs:121-130 | however long the keys, names stay short, and a short key can be read off its name |
| `StoreNames.FixedLengthIsOk` | framework/src/binding/store/map.rs:121-136 | keys of one length, other than 8 and 16, never collide |
| `StoreNames.LenKeyOverwrites` | framework/src/binding/store/map.rs:32-37 | an instance: the value of the key `_map_len` is the length the next block starts from |
| `StoreNames.BucketKeyOverwrites` | framework/src/binding/store/map.rs:110-119 | an instance: the value of a key that spells a bucket's suffix is the key list the next block reads |
| `StoreContents.UndoneInStepIff` | framework/src/binding/state/mod.rs:113-116 | a call whose writes are undone leaves memory and state in step if and only if the lists and length it ended with are those of the state; if it began in step, if and only if it left those in the state as it found them |
| `StoreMap.BehaveAlikeIffSeen` | framework/src/binding/store/map.rs:49-119 | two memories answer and write alike in every operation if and only if they show the same key lists and length, unless lists that differ both hold every key there is |
| `StoreMap.OrderIsNotNoticed` | framework/src/binding/store/map.rs:49-119 | an instance of the exception: the order of the only two keys of a bucket |
| `StoreMap.ShortHasRoom` | framework/src/binding/store/mod.rs:62-82 | a list that is shorter than the number of its bucket's keys is told from every other |
| `StoreMap.RevertKeepsSeen` | framework/src/binding/state/mod.rs:113-116 | undoing a call's writes does not undo the lists it goes by |
| `StoreTraces.NoDifferenceIff` | framework/src/executor/mod.rs:462-521 | two memories make no difference to any services that see their key lists and length, and any transactions that can follow, if and only if those are the same |
| `StoreTraces.FailedCallTraceIff` | framework/src/executor/mod.rs:421-425 | a call that fails, in step with the state or not, leaves no trace in any continuation of the block if and only if the key lists and length it goes by at its end are those it went by at its start |
| `StoreTraces.FailedCallInStep` | framework/src/executor/mod.rs:421-425 | if it started in step: if and only if it left lists and length in the state as it found them |
| `StoreTraces.TraceUponTrace` | framework/src/binding/store/map.rs:49-102 | an instance after an earlier trace: a failing call that leaves lists and length in the state as it found them, and a trace |
| `StoreTraces.DifferenceIsSeen` | framework/src/binding/store/map.rs:49-119 | memories that look different are told apart by a transaction that makes one operation, unless lists that differ both hold every key there is |
| `StoreTraces.FailedInsertShows` | framework/src/binding/store/map.rs:49-64 | an instance: a failed insertion is found by a query in the same block, and not without it |
| `StoreTraces.FailedInsertIsStored` | framework/src/binding/store/map.rs:49-64 | the next insertion into the bucket then stores the key although it has no value |
| `BlockSpec.ObjectionDropsOnlyEvents` | framework/src/executor/mod.rs:427-434 | with or without objecting after-hooks the state, the cycles and the code are the same; only events are dropped |
| `Executor.ServiceExecutor.Kan` | framework/src/executor/mod.rs:129-147 | a hook's effects are kept whatever it answers, and a panic is reported; nothing is committed |
| `Executor.ServiceExecutor.TxHooks` | framework/src/executor/mod.rs:150-180 | the hook loop equals the fold over services, of which `TxAnatomy.HooksAre` says what it comes to: it fails exactly when a hook panics and objects exactly when some hook answers with an error |
| `Executor.ServiceExecutor.Invoke` | framework/src/executor/mod.rs:439-456 | a skipped call or an unknown service has no effect but its error code; a panic reverts |
| `Executor.ServiceExecutor.Call` | framework/src/executor/mod.rs:399-425 | writes and events of the call are kept if and only if its code is zero; cycles and memory always are |
| `Executor.ServiceExecutor.Settle` | framework/src/executor/mod.rs:427-434 | leaves nothing cached, and drops events since the call exactly when an after-hook objected |
| `Executor.ServiceExecutor.CatchCall` | framework/src/executor/mod.rs:387-437 | a transaction over the layers equals the fold: same visible state, memory, cycles, events, cancel mark and code, an error exactly when it has one, nothing cached afterwards, nothing committed |
| `Executor.ServiceExecutor.Hook` | framework/src/executor/mod.rs:302-327 | block hooks equal the fold that keeps a hook's writes if and only if it does not panic, and its memory always |
| `Executor.ServiceExecutor.ExecTxs` | framework/src/executor/mod.rs:470-500 | the transactions of a block equal the fold, memory passing from one to the next, stopping with an error exactly when the fold has one |
| `Executor.ServiceExecutor.Exec` | framework/src/executor/mod.rs:462-521 | a block equals the fold: committed state, services' memory, receipts, root and cycle total; it fails exactly when the fold does and then commits nothing |
| `Executor.ServiceExecutor.Commit` | framework/src/executor/mod.rs:281-288 | everything visible is in the tries and the root is theirs |
| `Executor.Finish` | framework/src/executor/mod.rs:507-513 | every receipt gets the state root and nothing else changes; the total is their sum |
| `Signatures.VerifyMultiSignature` | built-in-services/multi-signature/src/lib.rs:523-568 | on every graph, cyclic ones included, the early-exit loop ends without overflow and gives the verdict by weight, which `SignatureTrees.VerifiedIffTree` and `SignatureTrees.RefusalSaysWhy` characterize by the evidence there is |
| `Signatures.VerdictMonotone` | built-in-services/multi-signature/src/lib.rs:523-568 | more valid signatures never turn success into failure |
| `SignatureTrees.VerifiedIffTree` | built-in-services/multi-signature/src/lib.rs:523-568 | an account is verified if and only if there is a tree of members, no deeper than the levels, in which every plain member has signed and the members picked at each account weigh as much as it asks for |
| `SignatureTrees.RefusalSaysWhy` | built-in-services/multi-signature/src/lib.rs:523-568 | and otherwise the error says exactly which: no levels left, no such account, or no such tree |
| `SignatureTrees.AllMembersSuffice` | built-in-services/multi-signature/src/lib.rs:523-568 | all members of a stored account together always suffice |
| `Signatures.NeedsASignature` | built-in-services/multi-signature/src/lib.rs:523-568 | nothing verifies without a valid signature unless an account with members and a zero threshold is reached by nesting within the levels |
| `Signatures.OpenNeedsNothing` | built-in-services/multi-signature/src/lib.rs:539-565 | such an account itself verifies for anybody |
| `Signatures.UnsignedIffOpen` | built-in-services/multi-signature/src/lib.rs:523-568 | some account verifies without any signature if and only if some account has members and a zero threshold |
| `Signatures.LimitPlaysNoPart` | built-in-services/multi-signature/src/lib.rs:523-602 | if the depth check passes, every larger depth limit gives the same verdict, error codes included |
| `Signatures.OverflowMeansChain` | built-in-services/multi-signature/src/lib.rs:583-602 | if the depth check fails, some chain of nested accounts is as long as the limit |
| `Signatures.ChainMeansOverflow` | built-in-services/multi-signature/src/lib.rs:583-602 | and every such chain makes it fail |
| `Signatures.EndlessIffCycle` | built-in-services/multi-signature/src/lib.rs:583-602 | beyond the number of accounts, the depth check fails if and only if a cycle can be reached |
| `Signatures.CycleOverflows` | built-in-services/multi-signature/src/lib.rs:583-602 | an account on a cycle fails the depth check at every limit |
| `Signatures.IntoAddrMap` | built-in-services/multi-signature/src/types.rs:224-232 | each address gets the last key that has it, with that key's signature, and no other address appears |
| `Signatures.VerifySignature` | built-in-services/multi-signature/src/lib.rs:496-521 | one key of the sender is checked alone; otherwise the verdict is by weight over the addresses whose last key signed; each malformed request has its error |
| `MultiSig.RunIsSound` | built-in-services/multi-signature/src/lib.rs:112-494 | after every sequence of calls each permission has at most 16 accounts whose weights reach its threshold |
| `MultiSig.StepIsSound` | built-in-services/multi-signature/src/lib.rs:112-494 | each single call keeps that |
| `MultiSig.RemovedIsSound` | built-in-services/multi-signature/src/types.rs:141-166 | taking out the first match keeps it |
| `MultiSig.ReweightedIsSound` | built-in-services/multi-signature/src/types.rs:172-194 | reweighting the first match keeps it |
| `MultiSig.Index` | built-in-services/multi-signature/src/types.rs:150-155 | the first account with the address, or the length if there is none |
| `MultiSig.OnlyTheOwnerChanges` | built-in-services/multi-signature/src/lib.rs:228-494 | no call deletes an account, a refused call changes nothing, and an account changes only by its owner or by generation of that very address |
| `MultiSig.UntouchedStays` | built-in-services/multi-signature/src/lib.rs:112-494 | over whole runs an account that nobody entitled touches is exactly as it was |
| `MultiSig.OnlySetThresholdMakesZero` | built-in-services/multi-signature/src/lib.rs:462-494 | a threshold becomes zero only by its owner setting it; generation and update refuse zero |
| `MultiSig.ZeroWasSet` | built-in-services/multi-signature/src/lib.rs:112-494 | over whole runs a zero threshold was there from the start or was set |
| `MultiSig.ZeroThresholdVerifies` | built-in-services/multi-signature/src/lib.rs:462-494 | after setting it, the account verifies without any signature |
| `MultiSigCalls.UnreachedIsRefused` | built-in-services/multi-signature/src/lib.rs:228-494 | an unknown account and a caller who is not the owner are answered so, for exactly these reasons, and nothing changes |
| `MultiSigCalls.ChangeOwnerIs` | built-in-services/multi-signature/src/lib.rs:309-336 | refused exactly if the new owner starts a chain of eight accounts; otherwise the account has the new owner and is as it was in all else |
| `MultiSigCalls.HandedOver` | built-in-services/multi-signature/src/lib.rs:309-336 | once an account is handed over, every call of its former owner is refused and the new one is heard |
| `MultiSigCalls.ChangeMemoIs` | built-in-services/multi-signature/src/lib.rs:339-361 | always accepted, and nothing but the memo changes |
| `MultiSigCalls.AddAccountIs` | built-in-services/multi-signature/src/lib.rs:364-397 | refused exactly at sixteen members or if the new one starts a chain of seven accounts; otherwise it is the last member and nothing else changes |
| `MultiSigCalls.RemoveAccountIs` | built-in-services/multi-signature/src/lib.rs:400-428 | the first match goes, unless the rest weighs too little; all before it stay and all behind move up |
| `MultiSigCalls.SetWeightIs` | built-in-services/multi-signature/src/lib.rs:431-459 | the first match has the new weight, unless all then weigh too little; no other member and no other field changes |
| `MultiSigCalls.NoSuchMember` | built-in-services/multi-signature/src/types.rs:141-194 | removing or reweighting a member that is not there is refused |
| `MultiSigCalls.SetThresholdIs` | built-in-services/multi-signature/src/lib.rs:462-494 | refused exactly if the weights do not reach it; otherwise nothing but the threshold changes |
| `MultiSigCalls.UpdateIs` | built-in-services/multi-signature/src/lib.rs:228-306 | all four fields are replaced, the members in order; refused exactly if the account would be a member of itself or for the number, the weights or the depth of the members, each with its error |
| `MultiSigCalls.GenerateIs` | built-in-services/multi-signature/src/lib.rs:112-183 | the new account, at the address derived from the transaction, has the members in order and belongs to itself if autonomous and else to the named owner; each refusal has its exact reason |
| `MultiSigCalls.OwnerIsLastGiven` | built-in-services/multi-signature/src/lib.rs:112-494 | after every run an account belongs to whom the last accepted call that names an owner named, or to its first owner if there was none |
| `MultiSigService.WeightSum` | built-in-services/multi-signature/src/types.rs:143-147 | the 32-bit sum equals the mathematical one |
| `MultiSigService.MultiSigPermission.RemoveAccount` | built-in-services/multi-signature/src/types.rs:141-166 | removes the first match unless the rest falls below the threshold, without underflow; otherwise nothing changes |
| `MultiSigService.MultiSigPermission.SetAccountWeight` | built-in-services/multi-signature/src/types.rs:172-194 | reweights the first match unless the sum falls below the threshold, without over- or underflow |
| `MultiSigService.Service.InitGenesis` | built-in-services/multi-signature/src/lib.rs:72-108 | stores its account exactly when it is well formed |
| `MultiSigService.Service.GenerateAccount` | built-in-services/multi-signature/src/lib.rs:112-183 | refines the generation step, every error in the source's order |
| `MultiSigService.Service.Judge` | built-in-services/multi-signature/src/lib.rs:117-143 | length, weights and depth are refused in this order and for exactly these reasons |
| `MultiSigService.Service.Mark` | built-in-services/multi-signature/src/lib.rs:151-163 | a member is marked nested exactly when its look-up was still paid for and found it |
| `MultiSigService.Service.EditAccount` | built-in-services/multi-signature/src/lib.rs:228-494 | refines the owner's step: unknown account, wrong owner, refusal or change |
| `MultiSigService.Service.Change` | built-in-services/multi-signature/src/lib.rs:228-494 | each kind of call changes the permission in place, or is refused with its error, as the step on values does; what that is, field by field, are the lemmas of `MultiSigCalls` |
| `Asset.StepConserves` | built-in-services/asset/src/lib.rs:203-463 | every call, failing ones included, keeps balances summing to supplies and only existing assets in the books |
| `Asset.RunConserves` | built-in-services/asset/src/lib.rs:101-119 | so does every sequence of calls from genesis |
| `Asset.TransferNeverOverflows` | built-in-services/asset/src/lib.rs:413-463 | in a conserved ledger a transfer fails if and only if it is to oneself or exceeds the balance, so the overflow branches are never taken |
| `Asset.MoveKeepsTotal` | built-in-services/asset/src/lib.rs:413-463 | a transfer changes no asset's total |
| `Asset.IssueConserves` | built-in-services/asset/src/lib.rs:101-119 | genesis and creation give the whole supply of a new asset to its issuer and keep all others' books |
| `AssetService.Service.Create` | built-in-services/asset/src/lib.rs:203-251 | refines creation; an existing id is refused and changes nothing |
| `AssetService.Service.TransferTo` | built-in-services/asset/src/lib.rs:255-292 | refines the transfer step with its error codes |
| `AssetService.Service.Approve` | built-in-services/asset/src/lib.rs:296-345 | refines the approval step with its error codes |
| `AssetService.Service.TransferFrom` | built-in-services/asset/src/lib.rs:349-411 | refines spending, the reduced allowance staying written when the transfer fails |
| `AssetService.Service.Move` | built-in-services/asset/src/lib.rs:413-463 | exactly when it can, takes the value from the sender and gives it to the recipient, and changes no other balance; else changes nothing |
| `Payments.CreateIs` | built-in-services/asset/src/lib.rs:203-251 | refused exactly if the identifier is taken; otherwise the asset is stored as asked for and its issuer holds the supply |
| `Payments.TransferAnswer` | built-in-services/asset/src/lib.rs:255-292 | fails exactly without the asset, to oneself, or beyond what the caller holds, each with its code |
| `Payments.ApproveAnswer` | built-in-services/asset/src/lib.rs:296-345 | fails exactly for oneself or without the asset |
| `Payments.SpendingAnswer` | built-in-services/asset/src/lib.rs:349-411 | fails exactly without the asset, beyond the grant, to the sender itself, or beyond what the sender holds |
| `Payments.TransferPays` | built-in-services/asset/src/lib.rs:413-463 | a successful transfer takes exactly its value from the caller and gives it to the recipient, every other balance staying; a failed one, and every approval, leaves all balances |
| `Payments.SpendingPays` | built-in-services/asset/src/lib.rs:349-463 | a successful spending takes exactly its value from the sender, not the caller; a failed one leaves all balances |
| `Payments.HeldAfterStep` | built-in-services/asset/src/lib.rs:203-463 | every balance after a call is the one before and what the call, read by itself, brings that account |
| `Payments.HeldAfterRun` | built-in-services/asset/src/lib.rs:203-463 | after every run, with and without rollback, every balance is the first one and what the successful calls brought |
| `Allowances.GrantAfterStep` | built-in-services/asset/src/lib.rs:296-411 | what any call does to any one grant: set by its approval, reduced by its use even if the transfer fails, otherwise unchanged |
| `Allowances.BooksBalance` | built-in-services/asset/src/lib.rs:349-411 | under rollback, after every run, what is left of a grant plus what was moved since the last approval is what was approved |
| `Allowances.RawBooksAddUp` | built-in-services/asset/src/lib.rs:364-389 | without rollback, after every run, what is left, what was moved and what was lost to failed spendings add up to what was approved, so the books balance if and only if nothing was lost |
| `Payments.MovedIsPaid` | built-in-services/asset/src/lib.rs:349-463 | under rollback, what the books of a grant call moved is what the grantor's balance lost and the recipients' gained through it since it was last approved |
| `Payments.RawMovedIsPaid` | built-in-services/asset/src/lib.rs:349-463 | so it is without rollback |
| `Payments.LeftAndPaid` | built-in-services/asset/src/lib.rs:349-463 | what is left of a grant and what the grantor's balance lost through it since the last approval are what was approved |
| `Allowances.RawBooksBalanceIff` | built-in-services/asset/src/lib.rs:364-389 | without rollback a call keeps that if and only if it is not a positive, allowed spending to the sender itself or beyond its balance |
| `Allowances.RawSpendingLosesGrant` | built-in-services/asset/src/lib.rs:364-389 | an instance: a grant of five is used up by a spending that fails |
| `AssetOnChain.TxFollows` | framework/src/executor/mod.rs:387-437 | a transaction does to the ledger what its kept ledger calls do, whichever hooks and calls make them and how many |
| `AssetOnChain.PointFollows` | framework/src/executor/mod.rs:462-521 | at any point of any chain of blocks the ledger is the run of all kept ledger calls from the start |
| `AssetOnChain.LedgerOnChain` | built-in-services/asset/src/lib.rs:349-463 | from genesis, after every transaction of every block, supplies are conserved and for every grant what is left, moved since the last approval in whichever block, and lost add up to the approval; nothing is lost if every kept call succeeded |
| `AssetHost.ServeFollows` | built-in-services/asset/src/lib.rs:203-463 | served over the store map and one entry for each account, a call does to the stored ledger what the ledger's step does, with its code, and leaves the memory in step |
| `AssetHost.SourceNamesOk` | framework/src/binding/state/mod.rs:138-143 | with the service's own names and digests of one encoded length, at least 32 bytes, no names collide as long as the digests in use differ, and the results about the service apply |
| `AssetHost.AssetServiceHosts` | built-in-services/asset/src/lib.rs:93-99 | the asset service in the executor satisfies what the results about chains require |
| `AssetHost.UndoneGoodIff` | framework/src/binding/state/mod.rs:113-116 | a ledger call that is undone leaves the memory in step with the state if and only if it created no asset |
| `AssetHost.UndoneCreationShows` | built-in-services/asset/src/lib.rs:203-251 | an instance: after an undone creation the asset seems to exist for the rest of the block, is refused, and approving it breaks conservation |
| `AssetChain.Genesis` | built-in-services/asset/src/lib.rs:100-119 | the first asset, listed in an empty state, leaves a ledger that holds it and its issuer's supply, and a state a memory can be built from |
| `AssetChain.AssetServiceIsCareful` | built-in-services/asset/src/lib.rs:203-463 | a call of the asset service never panics, succeeds if its code is zero, and creates no asset otherwise |
| `AssetChain.AssetLedgerOnChain` | built-in-services/asset/src/lib.rs:296-463 | with the asset service alone, from genesis, for all blocks and after every transaction: no panic, supplies conserved, and what is left of a grant plus what was moved since the last approval equals the approval |
| `Quorum.VerifyProofWeight` | core/consensus/src/adapter.rs:767-811 | accepts exactly the lists of known voters weighing more than two thirds, and tells unknown voters from light lists |
| `Quorum.QuorumsIntersect` | core/consensus/src/adapter.rs:767-811 | two accepted lists in which no positive weight repeats share voters holding more than a third of the weight |
| `Quorum.WeighsAsSetIff` | core/consensus/src/adapter.rs:776-800 | a list weighs what its voters weigh if and only if no voter of positive weight repeats |
| `Quorum.DistinctCountsOnce` | core/consensus/src/adapter.rs:776-800 | lists without repetitions are such lists |
| `Quorum.RepetitionsNeedNotIntersect` | core/consensus/src/adapter.rs:767-811 | with repetitions two accepted lists may share nobody |
| `Keys.KeyRoundTrip` | core/storage/src/lib.rs:123-147 | a key gives back its height and hash |
| `Keys.KeyIsMade` | core/storage/src/lib.rs:201-216 | height and hash of any 40-byte key give back the key |
| `Keys.OrderIsNumeric` | core/storage/src/lib.rs:118-147 | big-endian heights sort as bytes the way they sort as numbers |
| `Keys.HeightsAreSorted` | core/storage/src/lib.rs:118-147 | sorted keys have sorted heights |
| `Keys.BelowPrefix` | core/storage/src/lib.rs:123-128 | the keys below a height's prefix are exactly those of smaller heights |
| `Storage.Seek` | core/storage/src/lib.rs:288-291 | the scan starts behind all smaller heights and at none of them |
| `Storage.Scan` | core/storage/src/lib.rs:287-319 | the early-stopping scan finds exactly the requested hashes stored at the height, each once |
| `Storage.DecodeFound` | core/storage/src/lib.rs:321-353 | decoding in batches equals decoding in order, first failure included |
| `Storage.Realign` | core/storage/src/lib.rs:355-355 | each value goes to the first hash that asks for it |
| `Storage.AnswerIsStored` | core/storage/src/lib.rs:278-356 | a point lookup gives the decoded bytes of the one row under the hash, and nothing if there is no such row |
| `Storage.GetTransactions` | core/storage/src/lib.rs:278-356 | the whole read equals point lookup and decoding for each first occurrence and nothing for repetitions, and fails exactly when a requested stored value does not decode |

## Left out

- Proofs, proposers, timestamps, validator lists, ratios and limits in headers and status: carried along, never compared by the modelled code.
- The voting rounds of Overlord: any proposed block may be decided, one at a time, and consensus hands a node for commit only a block that it proposed or checked, or one it had decided before a restart. That is what `Network.CommitNeverPanics` assumes of Overlord.
- Hashing, signatures, Merkle roots and the Patricia trie: parameters; the committed trie is the map it represents.
- RocksDB, the write-ahead log, the network, configuration, metrics and logging: a database column is its sorted rows, and writes to it succeed or the task stops.
- RLP, prost and JSON codecs: decoding is a parameter, and the errors for payloads and stored values that cannot be decoded do not occur.
- Heights, cycles, proof weights and the length of a store map are unbounded numbers: wrap-around of 64-bit sums is not modelled there. Asset amounts and multi-signature weights have their machine width.
- `get_receipts` has the shape of `get_transactions` with another value type and is not repeated.
- Reads through the executor and `create_genesis`: they use the same layers and add no new behaviour.
- Iteration over store maps and the other stores: arrays keep their key list in memory in the same way; booleans, numbers and strings keep nothing.
- The order of hooks is the order of the list of service names; what a hook or call does is one step to the executor, nested calls included, and depends only on the transaction, the visible state and the services' memory.
- AssetOnChain.LedgerOnChain: no effect that is undone creates an asset on the way; `AssetHost.UndoneCreationShows` is what happens otherwise.
- Store map keys whose encoding is empty: the bucket index of such a key is a panic.
- PoolRuns.RunInv: packages do not overlap flushes, and that the wait on the insertion counter ends is not stated.
- Membership order and dropped results in `ensure_order_txs` and `get_full_txs`.
- Acyclicity of the multi-signature graph: it is not kept by the code, so only what the depth check tells is stated.
- The fee of each multi-signature call itself: a call that cannot pay it is refused before it starts; the fee of member look-ups is modelled.
