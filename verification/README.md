# Verified model of CreditChain core components

A Dafny model of the parts of the CreditChain node where correctness depends on how several
operations interact, with proofs about every input, every run or every reachable state.

| module | component |
|---|---|
| `OrderedDelivery` | parallel producers, one in-order consumer: mutexes, condition variables and an atomic flag as a transition system |
| `Blocks`, `Overlay`, `ChainState`, `Persistence`, `HashedState` | blocks kept in memory, the state readers laid over the database, and writing and pruning in the background |
| `BigBlock`, `BigBlockExecutor`, `BalWorkers` | execution of many original blocks as one big block, one by one or by parallel workers with a block access list |
| `WotsPlus` | the WOTS+ reference signer and verifier |
| `Lexicographic`, `Etl` | the external merge sort |
| `HeaderIndex`, `EraImport` | the import of ERA history files and the block hash index it writes |
| `ForkId`, `ForkOrder` | fork identifiers and the order of the forks of a genesis configuration |
| `CachedReads` | the read cache in front of a database |

The main results:

- In every run of commits, reorgs to any depth, background saves, disk unwinds, prune reports,
  pending updates and backfills, a reader at the head sees what a database would answer in which
  the whole canonical chain has been written, even while the disk is on another branch
  (`Persistence.ReadersSeeTheCanonicalState`).
- Pruning changes the optional storage answer exactly when the slot's last write is a zero among
  the dropped blocks (`Overlay.StorageOptionPreserved`).
- The hashed state handed to the trie code answers every slot and account as the plain readers do,
  destroyed accounts included (`HashedState.TrieInputReadsStorage`).
- Executing a big block runs the events of the original blocks one after the other, exactly when
  the first of several segments is not empty (`BigBlock.RefinesExactlyWhen`). With true hashes to
  seed it then has their receipts, gas and blob gas, for any machine, BLOCKHASH included. It has
  their requests exactly when no block's end can read a request off the receipts of an earlier
  block, because every segment is handed all receipts so far (`BigBlock.BigBlockRefinesSequential`,
  `BigBlockExecutor.ExecuteBlock`).
- The same holds of workers that run the transactions in any order against the received block
  access list, whichever worker takes which transaction and in whatever order the outputs arrive
  (`BalWorkers.ParallelRefinesSequential`); the block is finished exactly when one output has come
  for each transaction (`BalWorkers.ExecuteWithWorkers`).
- The ordered consumer has no lost wakeup and no deadlock, every run is finite, and it delivers
  exactly the items before the first hole (`OrderedDelivery.EveryRunTerminates`,
  `OrderedDelivery.FinalDelivery`).
- WOTS+ digit vectors form an antichain, and every signature verifies (`WotsPlus.DigitsAntichain`,
  `WotsPlus.SignVerifies`).
- Collecting through sorted files and merging is sorting, exactly when no tail of zero-byte entries
  is left in the buffer (`Etl.CollectAndIterate`).
- An ERA import never writes the execution checkpoint, a successful receipt repair ends on it, and
  the hash index, written through the merge sort, gains every new header (`EraImport.Import`).
- A file of consecutive blocks is imported exactly when each of its blocks suits the store, receipts
  that are filled in below the headers tip included (`EraImport.FileSucceedsExactlyWhen`).
- The fork id loop is the fold over the sets of activation points exactly when the first timestamp
  is not the last block fork's number (`ForkId.ComputeForkId`, `ForkId.ListExactUnlessClash`), and a
  genesis file gives an ordered list exactly when its activations ascend
  (`ForkOrder.ForksOfGenesis`).
- With database reads failing at any time, the read cache answers as the state does exactly when
  absent accounts have zero storage (`CachedReads.TransparentExactlyWhen`). Deleting the failed
  steps from a run leaves a run with the same final cache and the same other answers
  (`CachedReads.FailuresLeaveNoTrace`).

Where the code does not have the property its documentation suggests, the model keeps the code and
states the exact condition, with an input on which the property fails:

| condition | an input that fails |
|---|---|
| `BigBlock.Stuck` | `BigBlock.EmptyBlockThenOneTx` |
| `BigBlock.NoneRepeated` | `BigBlock.DepositReportedTwice` |
| `Etl.LosesTail` | `Etl.EmptyEntryIsLost` |
| `ForkId.Clash` | `ForkId.ClashingList` |
| `ForkId.SatisfyPassesBlocks` | `ForkId.MergeComesFirst` |
| `Overlay.StorageOptionPreserved` | `Overlay.StorageOptionLost` |
| `Overlay.CanonicalHashesRange` | `Overlay.RangeStopsAtMemory` |
| `CachedReads.TransparentExactlyWhen` | `CachedReads.AbsentWithStorage` |
| `EraImport.CheckpointsNeverDrop` | `EraImport.EmptyFileLowersCheckpoints` |

Two comments in crates/chain-state/src/memory_overlay.rs (lines 93 and 102) call the in-memory
blocks ascending; the code keeps them newest first, and so does the model.

Check everything with `dafny verify dfyconfig.toml`.

## Model

| member | source | states |
|---|---|---|
| OrderedDelivery.StepKeepsInv | crates/tasks/src/for_each_ordered.rs:81-150 | every step of a producer, the panicking coordinator or the consumer keeps the invariant: slots hold exactly the written and untaken values, the delivered items are a prefix, the flag is only set after a panic, and a waiting consumer has a wakeup to come |
| OrderedDelivery.RunKeepsInv | crates/tasks/src/for_each_ordered.rs:108-151 | the invariant holds in every state of every interleaving |
| OrderedDelivery.DeliveredIsPrefix | crates/tasks/src/for_each_ordered.rs:89-101 | at every moment the callback has seen items 0 to k-1 in index order, each once, and never takes one back |
| OrderedDelivery.FinalDelivery | crates/tasks/src/for_each_ordered.rs:123-150 | a run that ended without a panic delivered all items; with a panic exactly those before the first slot that was never written; every other produced value is still in its slot |
| OrderedDelivery.NoLostWakeup | crates/tasks/src/for_each_ordered.rs:81-101 | a parked consumer always has a producer still to write, a pending notification, or a panic wakeup that has not reached its slot |
| OrderedDelivery.StepDecreasesRank | crates/tasks/src/for_each_ordered.rs:81-150 | every step, whoever takes it, decreases a measure |
| OrderedDelivery.EveryRunTerminates | crates/tasks/src/for_each_ordered.rs:108-151 | no run takes more than 21 n + 20 steps, and a run that cannot be extended is one in which both threads are through: there is no deadlock |
| Blocks.ApplyReads | crates/storage/provider/src/providers/database/provider.rs:2775-2826 | after a block's changes are written, account, slot, code and hash reads answer from the block if it has an entry and as before otherwise |
| Overlay.LatestOverlap | crates/chain-state/src/in_memory.rs:325-384 | replaying writes that the base already contains changes no answer |
| Overlay.OverlayAccount | crates/chain-state/src/memory_overlay.rs:115-123 | the newest-first search finds the last write of the oldest-first list |
| Overlay.OverlayStorage | crates/chain-state/src/memory_overlay.rs:238-250 | the same for a storage slot, where a missing entry reads as zero |
| Overlay.OverlayCode | crates/chain-state/src/memory_overlay.rs:254-262 | the same for bytecode |
| Overlay.OverlayHash | crates/chain-state/src/memory_overlay.rs:74-82 | the same for block hashes |
| Overlay.PersistenceIsInvisible | crates/chain-state/src/memory_overlay.rs:74-262 | for any chain, database, and r <= d: with the oldest r blocks pruned from memory and the oldest d written, every read answers as if the whole chain were written |
| Overlay.StorageOptionPreserved | crates/chain-state/src/memory_overlay.rs:238-250 | for all r <= d: with the oldest r blocks dropped from memory over a database with the oldest d written, the optional storage answer is the old one if and only if the slot's last write is not an explicit zero among the dropped blocks |
| Overlay.StorageOptionLost | crates/chain-state/src/memory_overlay.rs:238-250 | a block and a database for which it changes |
| Overlay.CanonicalHashesRange | crates/chain-state/src/memory_overlay.rs:84-111 | the range query is one query per number, ascending, without gap or duplicate at the seam, if and only if the database knows no number of the range above memory; otherwise it stops at the newest in-memory block |
| Overlay.RangeStopsAtMemory | crates/chain-state/src/memory_overlay.rs:84-111 | block 1 in memory and block 2 in the database: the query for 0 to 2 should end with block 2 and stops before it |
| Overlay.RangeSeam | crates/chain-state/src/memory_overlay.rs:84-111 | the per-number answers split into database below memory, memory, and database above |
| ChainState.LinkedIsConsistent | crates/chain-state/src/in_memory.rs:267-303 | the maps of a linked chain are inverse indexes over an interval, each parent is the entry below, and the pending block hangs on its parent's entry |
| ChainState.ChainWalksDown | crates/chain-state/src/in_memory.rs:697-699 | from any entry of consistent maps the chain visits the map entries one number apart down to the lowest |
| ChainState.HeadChainIsEverything | crates/chain-state/src/in_memory.rs:124-127 | the head state's chain lists exactly the in-memory blocks, newest first |
| ChainState.BlockOnChainAgrees | crates/chain-state/src/in_memory.rs:729-734 | searching an entry's ancestors by number or hash is looking it up in the maps, among entries that are not newer |
| ChainState.IndexAppend | crates/chain-state/src/in_memory.rs:285-295 | connecting a block to its parent's entry and inserting it gives the maps of the longer chain |
| ChainState.BlockIndexCut | crates/chain-state/src/in_memory.rs:277-283 | removing the hashes of the blocks above a fork gives the map of the shorter chain |
| ChainState.NumberIndexCut | crates/chain-state/src/in_memory.rs:277-283 | the same for the numbers |
| ChainState.StepKeepsLinked | crates/chain-state/src/in_memory.rs:253-384 | commit, reorg, prune, set-pending and clear keep the chain linked |
| ChainState.RunKeepsConsistent | crates/chain-state/src/in_memory.rs:156-384 | after every run of well-formed updates the maps and the pending block are consistent |
| ChainState.SortedAbove | crates/chain-state/src/in_memory.rs:354-362 | the drained blocks above the cut, sorted by number, are the rest of the chain |
| ChainState.InMemoryState.constructor | crates/chain-state/src/in_memory.rs:210-212 | a new state stands for the empty chain |
| ChainState.InMemoryState.Clear | crates/chain-state/src/in_memory.rs:156-168 | maps and pending block stand for the empty chain |
| ChainState.InMemoryState.SetPendingBlock | crates/chain-state/src/in_memory.rs:253-261 | the pending block is connected to its parent's entry, if there is one |
| ChainState.InMemoryState.UpdateBlocks | crates/chain-state/src/in_memory.rs:267-303 | the maps stand for the kept blocks followed by the new ones, and nothing is pending |
| ChainState.InMemoryState.Commit | crates/chain-state/src/in_memory.rs:306-315 | the maps stand for the chain followed by the new blocks |
| ChainState.InMemoryState.RemovePersistedBlocksUntil | crates/chain-state/src/in_memory.rs:327-384 | if the persisted hash is in memory, exactly the blocks up to the lower of the two heights leave, and the survivors are relinked; otherwise nothing changes |
| Persistence.ReportedBlock | crates/chain-state/src/in_memory.rs:333-342 | a reported block that is in memory is on disk at its place with the same ancestors; this is what makes dropping by number safe |
| Persistence.ReportKeepsGood | crates/engine/tree/src/tree/mod.rs:2350-2367 | a report about any block on disk, canonical or not, drops from memory only blocks that disk and canonical chain agree on and whose state is written |
| Persistence.ReorganiseKeepsGood | crates/engine/tree/src/tree/mod.rs:1030-1067 | a reorg to any depth, also below written blocks and below memory, keeps disk and memory consistent |
| Persistence.TaskKeepsGood | crates/engine/tree/src/tree/mod.rs:1518-1532 | starting and finishing a save or an unwind keeps them consistent, whatever happened to the chain in between |
| Persistence.StepKeepsGood | crates/chain-state/src/in_memory.rs:253-384 | memory stays a suffix of the canonical chain; disk and canonical chain agree at least below memory, and the state tables cover that |
| Persistence.UpdateIsAllowed | crates/engine/tree/src/tree/mod.rs:2890-2922 | the updates of memory in such runs are ones its methods accept |
| Persistence.FindDiskReorg | crates/engine/tree/src/tree/mod.rs:2843-2884 | there is no reorg on disk if and only if the disk is a prefix of the canonical chain; otherwise the last common block is found, and it is not below the blocks that left memory |
| Persistence.ReadersSeeTheCanonicalState | crates/storage/provider/src/providers/consistent.rs:402-423 | in every state of every run the maps are consistent and a read at the head, over the database as of the anchor, answers as a database with the whole canonical chain; while disk and chain have not diverged, also over the state tables as they are |
| Persistence.ReadersAtABlock | crates/chain-state/src/in_memory.rs:722-726 | the same at any in-memory block, over the database as of any common block from below memory up to it |
| Persistence.ProviderBlocksAt | crates/chain-state/src/in_memory.rs:722-726 | the provider for a block lays exactly the chain up to that block over the database |
| Persistence.Anchor | crates/chain-state/src/in_memory.rs:627-633 | the number below and the parent hash of the lowest in-memory ancestor |
| Persistence.AnchorIsOnDisk | crates/storage/provider/src/providers/consistent.rs:412-421 | that block is on disk, at the place right below memory and nowhere else |
| HashedState.ExtendReads | crates/trie/common/src/hashed_state.rs:303-331 | after merging, the newer state answers where it has an answer, a wipe included |
| HashedState.TrieInput | crates/chain-state/src/memory_overlay.rs:52-63 | the loop merges oldest to newest, and answers every account and slot as searching newest to oldest |
| HashedState.ZeroFill | crates/chain-state/src/memory_overlay.rs:227-230 | missing keys get zero, present ones are kept |
| HashedState.HashedPostStateOf | crates/chain-state/src/memory_overlay.rs:214-234 | for accounts that existed and were destroyed, every slot of the in-memory ancestors that has no new value is zero, and nothing else changes |
| HashedState.NoStaleSlot | crates/chain-state/src/memory_overlay.rs:214-234 | laid over the ancestors, no value of theirs is left of a destroyed account |
| HashedState.TrieInputReadsStorage | crates/storage/provider/src/providers/state/latest.rs:255-267 | if each block's hashed state was computed over the blocks before it, the merged state over the database answers every slot as the plain overlay does, destroyed and re-created accounts included |
| HashedState.TrieInputReadsAccount | crates/trie/common/src/hashed_state.rs:49-71 | the same for accounts |
| BigBlock.BeginAt | bin/reth-bb/src/evm.rs:222-270 | initialization puts the executor at the start of the first block |
| BigBlock.CommitTxAt | bin/reth-bb/src/evm.rs:428-439 | a commit in a segment advances by one transaction of the original block, with its logs and cumulative gas |
| BigBlock.BoundaryAt | bin/reth-bb/src/evm.rs:288-386 | a boundary goes from the end of one original block to the start of the next, with its environment, context and totals; receipts are carried over, and the requests are those found in all receipts so far |
| BigBlock.BoundariesAt | bin/reth-bb/src/evm.rs:441-447 | the boundary loop crosses any number of empty segments and loses no transaction |
| BigBlock.RunsTheBlocks | bin/reth-bb/src/evm.rs:428-500 | the events of the big block are those of the original blocks in order, indexed consecutively, for any machine and any hashes |
| BigBlock.EnteredSeesTruth | bin/reth-bb/src/evm.rs:282-286 | after reseeding, BLOCKHASH answers truly for all 256 blocks of the window, from the cache or the database |
| BigBlock.DriveKnowing | bin/reth-bb/src/evm.rs:428-450 | with true hashes the whole run is the one of a machine that always sees the true hashes |
| BigBlock.BigBlockRefinesSequential | bin/reth-bb/src/evm.rs:328-377 | receipts, gas and blob gas are those of the original blocks run in order with the true hashes of their ancestors; the requests are theirs if and only if no block's end reads a request off the receipts of an earlier block |
| BigBlock.RequestsOfOneMore | bin/reth-bb/src/evm.rs:328-341 | per block the executor's requests and the reference's differ by exactly what is read again off the receipts of earlier blocks |
| BigBlock.CarriedExactlyWhen | bin/reth-bb/src/evm.rs:370-371 | with receipts carried forward, the requests of all blocks are the reference's if and only if nothing is read again |
| BigBlock.OnlyTheLastBlockMayDeposit | bin/reth-bb/src/evm.rs:370-371 | if what is read off a receipt does not depend on the block, the condition is that no receipt before the last block gives a request |
| BigBlock.DepositReportedTwice | bin/reth-bb/src/evm.rs:341-371 | two blocks with a deposit each: the blocks report two, the big block three |
| BigBlock.ConsecutiveBlocksResolve | bin/reth-bb/src/evm.rs:54-76 | for consecutive blocks the hash condition holds as soon as the database knows the hashes below the first one and all seeds are true |
| BigBlock.RunBlocksTrace | bin/reth-bb/src/evm.rs:288-386 | the reference trace is pre, transactions, post of each block, each in its own environment |
| BigBlock.RefinesExactlyWhen | bin/reth-bb/src/evm.rs:428-450 | the big block has that trace if and only if the first of several segments is not empty: boundaries are only looked for after commits |
| BigBlock.EmptyBlockThenOneTx | bin/reth-bb/src/evm.rs:441-447 | after an empty first block the next block's transaction runs in the empty block's environment |
| BigBlock.GasAtEveryStep | bin/reth-bb/src/evm.rs:336-341 | after any number of commits, receipt i carries the gas of transactions 0 to i, and offset plus segment gas is the total |
| BigBlock.SegmentIndexIs | bin/reth-bb/src/evm.rs:79-81 | the segment found for a transaction is the one that contains it |
| BigBlock.WorkerIndexExactlyWhen | bin/reth-bb/src/evm.rs:227-246 | the worker's index for transaction i is the canonical counter there if and only if nothing is stuck |
| BigBlock.WorkerSeesPrefix | bin/reth-bb/src/evm.rs:222-270 | the events below a worker's index are exactly the canonical events before its transaction, and the event at the index is that transaction in its own block's environment |
| BigBlock.SeedGet | bin/reth-bb/src/evm_config.rs:100-104 | seeding a window of 256 numbers into the hash ring overwrites none of them |
| BigBlock.HashesAtEveryStep | bin/reth-bb/src/evm.rs:282-286 | in every segment all known hashes of its 256-block window can be looked up |
| BigBlockExecutor.BbBlockExecutor.constructor | bin/reth-bb/src/evm.rs:188-211 | the executor starts before segment 0, not initialized |
| BigBlockExecutor.BbBlockExecutor.Initialize | bin/reth-bb/src/evm.rs:222-270 | index 0 enters segment 0 once; a positive index enters the transaction's segment at the renumbered index |
| BigBlockExecutor.BbBlockExecutor.ApplyPreExecutionChanges | bin/reth-bb/src/evm.rs:410-418 | initialization, canonical, as a worker or none, then the pre-execution changes of the selected segment |
| BigBlockExecutor.BbBlockExecutor.ApplySegmentBoundary | bin/reth-bb/src/evm.rs:288-386 | the new state is the boundary function of the old one, for which alignment is proved; the requests are read off all receipts held |
| BigBlockExecutor.BbBlockExecutor.ExecuteTransactionWithoutCommit | bin/reth-bb/src/evm.rs:420-426 | after initialization the transaction runs in the current environment, on the executor's own history or on the received events below its index |
| BigBlockExecutor.BbBlockExecutor.CommitTransaction | bin/reth-bb/src/evm.rs:428-450 | the commit of a result, found here or by a worker, and every boundary that is then due |
| BigBlockExecutor.BbBlockExecutor.Finish | bin/reth-bb/src/evm.rs:452-500 | totals over all segments, and the requests of all segments, the last ones read off all receipts |
| BigBlockExecutor.ParentHashesContain | bin/reth-bb/src/evm.rs:54-64 | each later block contributes the hash of the block before it |
| BigBlockExecutor.ContextForPayload | bin/reth-bb/src/evm_config.rs:269-294 | segments start at the running transaction count; the seeds are the prior hashes and all parent hashes, sorted |
| BigBlockExecutor.RunPlan | crates/engine/tree/src/tree/payload_validator.rs:1223-1286 | running and committing all transactions one by one on the executor object gives the big-block function's output |
| BigBlockExecutor.ExecuteBlock | bin/reth-bb/src/evm_config.rs:269-314 | a payload executed as one block against its blocks executed one after the other: the trace with its exact condition and, if the payload's hashes are true, receipts, gas and blob gas, and the requests with their exact condition |
| BigBlockExecutor.EarlierBlockHash | bin/reth-bb/src/evm.rs:69-76 | while a segment runs, the hash of every earlier block within 256 is the one its successor names as parent |
| BalWorkers.RunJob | crates/engine/tree/src/tree/payload_processor/bal/worker.rs:93-96 | one job runs in its transaction's segment against the events below its renumbered index, and seeds the cache for that segment |
| BalWorkers.Work | crates/engine/tree/src/tree/payload_processor/bal/worker.rs:68-106 | a worker that takes jobs in any order gives for each what an executor with a true cache gives |
| BalWorkers.WorkerIsCanonical | crates/engine/tree/src/tree/payload_processor/bal/worker.rs:93-96 | against the true list and with a true cache, the worker's event and result for transaction i are those the canonical executor has there |
| BalWorkers.WorkersRefine | crates/engine/tree/src/tree/payload_processor/bal/execute.rs:147-156 | committing the workers' outputs in order is executing the big block |
| BalWorkers.MissingMeansMore | crates/engine/tree/src/tree/payload_processor/bal/ordered_outputs.rs:85-108 | while an output is missing, fewer messages have come than there are transactions |
| BalWorkers.FileNext | crates/engine/tree/src/tree/payload_processor/bal/ordered_outputs.rs:95-108 | filing a fresh message keeps the buffer right: each slot holds what has come and was not handed out |
| BalWorkers.OrderedWorkerOutputs.Receive | crates/engine/tree/src/tree/payload_processor/bal/ordered_outputs.rs:85-108 | one message is filed; an error, a closed channel, an index out of bounds or a duplicate stops it, only if the messages are not one output for each transaction |
| BalWorkers.OrderedWorkerOutputs.Next | crates/engine/tree/src/tree/payload_processor/bal/ordered_outputs.rs:74-110 | the outputs are handed out in transaction order, each the first that came for its transaction; it fails if and only if the messages are not one output for each transaction |
| BalWorkers.ExecuteWithWorkers | crates/engine/tree/src/tree/payload_processor/bal/execute.rs:144-169 | the block is finished if and only if the first messages are one output for each transaction, and is then the commit of these in order |
| BalWorkers.AnyArrivalOrder | crates/engine/tree/src/tree/payload_processor/bal/ordered_outputs.rs:28-46 | whatever the order in which jobs are taken and outputs arrive, the block is the one executed transaction by transaction |
| BalWorkers.ParallelRefinesSequential | crates/engine/tree/src/tree/payload_processor/bal/execute.rs:144-169 | the block made by workers against the original blocks run in order: events, receipts, gas and blob gas, and the requests with their exact condition |
| WotsPlus.Chain | tools/ccq/wotsplus.py:90-96 | the loop advances a chain value step by step |
| WotsPlus.AdvanceCompose | tools/ccq/wotsplus.py:90-96 | two stretches of a chain compose |
| WotsPlus.ToDigits | tools/ccq/wotsplus.py:99-107 | 64 nibbles and the three nibbles of their checksum |
| WotsPlus.DigitsExact | tools/ccq/wotsplus.py:99-107 | all digits are below 16 and the last three represent the checksum, at most 960, without truncation |
| WotsPlus.DigitsAntichain | tools/ccq/wotsplus.py:99-107 | one digest's digits lie at or below another's at all 67 positions if and only if the digests are equal |
| WotsPlus.DigitsAreRfcDigits | tools/ccq/wotsplus.py:99-107 | the digits are those of sections 2.6 and 3.1.5 of RFC 8391 with the shifted checksum |
| WotsPlus.SliceJoin | tools/ccq/wotsplus.py:126-129 | slicing the joined 32-byte chunks gives the chunks back |
| WotsPlus.RecoversPublicKey | tools/ccq/wotsplus.py:121-129 | verification recovers the public key chain by chain from a 2144-byte signature |
| WotsPlus.TailIgnored | tools/ccq/wotsplus.py:126-129 | verification depends on the first 2144 bytes only, so trailing bytes are accepted |
| WotsPlus.AcceptedExactlyWhen | tools/ccq/wotsplus.py:126-129 | a signature of any length is accepted if and only if its chains join to the public key's bytes, and from 2144 bytes on if and only if each chain ends in its part of the key, barring a collision of the compression on exactly these two keys |
| WotsPlus.SignVerifies | tools/ccq/wotsplus.py:110-129 | for every seed, public seed and digest, the signature verifies |
| Lexicographic.KeySortedUnique | crates/etl/src/lib.rs:133-143 | with distinct keys there is one sorted arrangement |
| Etl.FromBeToBe | crates/etl/src/lib.rs:230-279 | the 8-byte length fields round-trip |
| Etl.NewFile | crates/etl/src/lib.rs:230-252 | the file holds exactly the buffer's entries, ready to be read from the start |
| Etl.ReadNext | crates/etl/src/lib.rs:257-279 | reading a well-formed file returns its first entry and leaves the rest; an empty one gives none, a truncated header an error |
| Etl.Top | crates/etl/src/lib.rs:176 | the heap's top is the smallest pair, and of equal pairs the one from the latest file |
| Etl.EtlIter.constructor | crates/etl/src/lib.rs:153-167 | the heap holds the first entry of every file |
| Etl.EtlIter.Next | crates/etl/src/lib.rs:203-216 | the entry returned has the least key of all that is left, and exactly it is taken; a file that cannot be read on gives an error in place of the entry, which does not happen with well-formed files |
| Etl.Drain | crates/etl/src/lib.rs:203-216 | a full pass gives all entries in key order |
| Etl.Collector.Flush | crates/etl/src/lib.rs:133-143 | the buffer moves to a new sorted file, no entry is lost |
| Etl.Collector.Insert | crates/etl/src/lib.rs:103-114 | the entry is buffered or flushed, and the buffer is what the capacity leaves of the insertions |
| Etl.Collector.Iter | crates/etl/src/lib.rs:153-167 | the iterator covers everything inserted, except a buffer that has entries but no bytes |
| Etl.CollectAndIterate | crates/etl/src/lib.rs:103-216 | the output is in key order; it is a permutation of the input if and only if no zero-byte tail is left in the buffer |
| Etl.EmptyEntryIsLost | crates/etl/src/lib.rs:153-167 | a single entry with empty key and value is lost at every capacity |
| Etl.SizedEntriesSurvive | crates/etl/src/lib.rs:153-167 | with at least one byte per entry nothing is lost |
| Etl.CollectDistinct | crates/etl/src/lib.rs:103-216 | with distinct keys the output is the sorted list, whatever the capacity |
| HeaderIndex.AppendableUnlessRepeated | crates/era-utils/src/history.rs:835-839 | in key order, an append is refused exactly when the key has occurred before |
| HeaderIndex.WriteRows | crates/era-utils/src/history.rs:825-840 | appending and replacing rows give the same table; appending fails exactly when a key repeats |
| HeaderIndex.BuildIndex | crates/era-utils/src/history.rs:796-843 | the index ends up with the old rows and one row per collected hash, in both modes; it fails exactly when a first sync meets a repeated hash |
| EraImport.AcceptedExactlyWhen | crates/era-utils/src/history.rs:684-703 | a block is accepted if and only if it is the next one or the stored one, and its receipts, if wanted, are verified, one per transaction and next in line |
| EraImport.ReceiptsTarget | crates/era-utils/src/history.rs:300-357 | a repair is started if and only if receipts live in static files, blocks have been executed beyond the receipts, the requested end is the execution checkpoint, and the first block is verifiable |
| EraImport.Accepted | crates/era-utils/src/history.rs:684-703 | an accepted block is the next one or the stored one, and its receipts passed the checks and match the transaction count |
| EraImport.WalkAccepts | crates/era-utils/src/history.rs:645-706 | a successful walk accepts exactly the next numbers up to the height it reports, never passes the target, and marks the file exactly when nothing in it lies above |
| EraImport.WalkImports | crates/era-utils/src/history.rs:677-703 | headers above the headers tip, and receipts if wanted, are written for exactly the accepted blocks |
| EraImport.ProcessIter | crates/era-utils/src/history.rs:619-707 | headers and receipts gain exactly the accepted blocks, and the file is marked exactly when it holds no block above the height reached |
| EraImport.FileSucceedsExactlyWhen | crates/era-utils/src/history.rs:645-706 | a file of consecutive blocks that joins on to the chain is imported, to its end or the target, if and only if every block to import is the stored one or new, its receipts, if wanted, are verified and one per transaction, and the file can be marked if its end is reached |
| EraImport.ImportFilesOutcome | crates/era-utils/src/history.rs:374-414 | for any list of files, failing or not, what is committed is one contiguous stretch, verified, with checkpoints at the height reached but not below the headers tip |
| EraImport.CheckpointsNeverDrop | crates/era-utils/src/history.rs:401-404 | the stage checkpoints survive every list of files if and only if they start at or below the headers tip |
| EraImport.EmptyFileLowersCheckpoints | crates/era-utils/src/history.rs:401-404 | with checkpoints at 10 and a headers tip of 3, one empty file takes the headers checkpoint to 3 |
| EraImport.RunFiles | crates/era-utils/src/history.rs:374-414 | the loop over the files is the function those results are about |
| EraImport.RepairLandsOnCheckpoint | crates/era-utils/src/history.rs:300-357 | a successful repair ends on the execution checkpoint, which is then the receipts tip |
| EraImport.HeadersEndAtHeight | crates/era-utils/src/history.rs:285-296 | the headers end at the height reached, or where they ended before |
| EraImport.Import | crates/era-utils/src/history.rs:238-432 | the whole import: refused repairs change nothing, the execution checkpoint is never written, the verdict is exact, and success ends where the source promises with every header indexed |
| ForkId.HashBlockForks | crates/chainspec/src/spec.rs:669-690 | the block loop folds the passed block points in ascending order and stops at the least one ahead |
| ForkId.HashTimeForks | crates/chainspec/src/spec.rs:692-713 | the same for timestamps, with the one the loop mistakes for the last block fork |
| ForkId.ComputeForkId | crates/chainspec/src/spec.rs:661-714 | hash and next are functions of the sets of activation points, exact for all ordered lists |
| ForkId.ExactUnlessClash | crates/chainspec/src/spec.rs:661-714 | the computed id is the declarative one for every head if and only if the first timestamp is not the last block fork's number |
| ForkId.ListExactUnlessClash | crates/chainspec/src/spec.rs:661-714 | the same for lists of forks |
| ForkId.ComputedIsDeclared | crates/chainspec/src/spec.rs:661-714 | without a clash the two agree for every checksum and head |
| ForkId.ClashingList | crates/chainspec/src/spec.rs:661-714 | an ordered list of three forks on which they differ, with both ids |
| ForkId.AddedForkInvisible | crates/chainspec/src/spec.rs:661-714 | a fork at an existing activation point or at genesis changes no fork id |
| ForkId.LastBlockForkBeforeMergeOrTimestamp | crates/chainspec/src/spec.rs:753-779 | the loop finds what the recursive search finds |
| ForkId.LastBlockForkStaged | crates/chainspec/src/spec.rs:753-779 | that is the merge's netsplit block, or else the last block fork |
| ForkId.SatisfyPassesBlocks | crates/chainspec/src/spec.rs:721-740 | the head built for a timestamp fork passes all block forks if and only if the list starts with a block fork or its first entry has no netsplit block above 0 |
| ForkId.MergeComesFirst | crates/chainspec/src/spec.rs:721-740 | a merge with netsplit block 5 before timestamp 9: the head built for timestamp 9 is below block 5 |
| ForkId.SatisfiedNextIsLater | crates/chainspec/src/spec.rs:721-740 | its fork id names a later timestamp next, or nothing |
| ForkOrder.Position | crates/chainspec/src/spec.rs:916-917 | the first fork of a name |
| ForkOrder.PickedIsPermutation | crates/chainspec/src/spec.rs:910-922 | placing the known forks first loses and duplicates none |
| ForkOrder.OrderForks | crates/chainspec/src/spec.rs:910-922 | the configured forks in the known order, then the unknown ones as given |
| ForkOrder.OrderedFromGenesis | crates/chainspec/src/spec.rs:910-922 | if activations follow the known order, the placed list is ordered by stage and starts with a block fork, as the fork id results need |
| ForkOrder.CollectForks | crates/chainspec/src/spec.rs:823-908 | the configured block forks, the merge and the timestamp forks, in the conversion's order |
| ForkOrder.PlacedAsGiven | crates/chainspec/src/spec.rs:910-922 | forks in that order stay as they are, whatever part of them mainnet knows |
| ForkOrder.ForksOfGenesis | crates/chainspec/src/spec.rs:821-922 | a genesis file gives an ordered list if and only if its activations ascend, and the list then starts with a block fork |
| CachedReads.CachedReadsDb.Basic | crates/revm/src/cached.rs:115-123 | answer and new cache of an account read |
| CachedReads.CachedReadsDb.CodeByHash | crates/revm/src/cached.rs:125-131 | answer and new cache of a code read |
| CachedReads.CachedReadsDb.Storage | crates/revm/src/cached.rs:133-154 | answer and new cache of a storage read, through the account |
| CachedReads.CachedReadsDb.BlockHash | crates/revm/src/cached.rs:156-162 | answer and new cache of a block hash read |
| CachedReads.CachedReadsDb.Extend | crates/revm/src/cached.rs:70-74 | the entries of the other cache take precedence |
| CachedReads.StepAgrees | crates/revm/src/cached.rs:70-162 | each operation keeps the cache in agreement with the state; a failure changes nothing and needs a failing read, and any other answer is the state's own except for storage of absent accounts |
| CachedReads.RunAgrees | crates/revm/src/cached.rs:70-162 | in every run, with reads failing at any time, the cache agrees with the state |
| CachedReads.TransparentExactlyWhen | crates/revm/src/cached.rs:70-162 | over every sequence of reads and merges all answers that are not failures are the state's own if and only if absent accounts have zero storage |
| CachedReads.AbsentWithStorage | crates/revm/src/cached.rs:133-154 | an absent account with 7 in a slot: the cache answers 0 |
| CachedReads.FailuresLeaveNoTrace | crates/revm/src/cached.rs:70-162 | deleting the failed steps from any run leaves a run with the same final cache, in which every remaining step has the answer it had |

## Left out

- EVM execution, tries, proofs and state roots: the big-block machine is any function of the events so far. The inner block executor is not part of the repository; of its end of a block the model takes that it reads requests off each receipt it holds and appends those of the system calls.
- Keccak and CRC32: arbitrary functions (32-byte results where the format needs it); nothing is said about their padding or collisions.
- Integer widths: gas, counters, heights and sizes are unbounded; only the 8-byte length fields of the merge sort and the byte formats of WOTS+ have their width.
- OrderedDelivery: spurious wakeups, a panic in the consumer's callback and the choice of thread pool.
- ChainState: the watch channels, the chain info tracker and the notifications; each update is one step because both locks are held.
- Persistence: how the database unwinds and reads as of an earlier block (both give the state after that many blocks), lookups of headers that fail, and which blocks a reorg collects; different blocks are assumed to have different hashes.
- Blocks.ApplyReads: the mode in which the tables are keyed by hashes, and the intermediate wipe flags of the write path; an account whose storage is wholly determined by a block reads zero for slots the block does not list.
- HashedState.TrieInput: trie nodes and prefix sets, which are merged beside the state.
- BigBlockExecutor.BbBlockExecutor.Initialize: the error returns of the inner executor.
- BigBlock: hashes that execution itself copies from the database into the ring, which answer the same either way; a payload without blocks.
- BalWorkers: the block gas limit checks, the abort channel, the receipt stream, and the comparison of the received access list with the one that is built; a received list that is not the true one.
- WotsPlus: Keccak internals, unforgeability, and digests shorter than 32 bytes (the source fails there).
- Etl: I/O errors other than a truncated file, temporary directories, and iterating a second time; a file is a value with a position.
- EraImport: downloading, RLP and SSZ decoding, bloom and receipts-root computation (one predicate), progress messages, and what is left in the hash collector after a failed file; writers and transaction of a file are dropped together when it fails.
- HeaderIndex: the encoding of block numbers is an arbitrary function.
- ForkId: named networks; `satisfy` on a fork that never activates (the source panics).
- ForkOrder: the activation block number of the merge, which fork ids do not use, blob parameters and deposit contract.
- CachedReads: conversion to other cache types and `insert_account`.
