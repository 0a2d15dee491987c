# Merger node: a verified model

This project models, in Dafny 4.11, the parts of the merger node whose correctness is hardest to see from
the code, and proves what they promise for every input, every run or every reachable state.

Four groups of components are modelled.

**The lock-free queue under the input path.** The code works by interleaved atomic operations, so each
component is a state machine whose steps are the single loads, stores, fetch-and-adds and compare-exchanges of
the code, for any number of threads. A run is any sequence of states that starts in the initial one and steps
from each to the next; the theorems hold in every state of every run.

- `TicketDequeue`: how consumers claim element indices with optimistic tickets.
- `BlockIndex`, `BlockIndexProof`: the growing circular index from element indices to blocks.
- `ImplicitQueue`: the two put together, from an element's enqueue to the consumer that reads it.
- `BlockPool`: the block index and the free list put together, from a block's requisition to its return.
- `FreeList`: the free list whose reference counts and flag share one word.
- `ProducerHash`: the chain of hash tables from thread ids to producers.
- `Semaphore`: the lightweight semaphore and the blocking queue on top of it.
- `CircularIndex`: comparison of wrapping 64-bit counters.

**Merkle tree, proofs and block storage.**

- `MerkleTree`: the flat tree, the proof extractor and the proof checker, over any hash function with 32-byte
  output and any number of leaves 2^h, h >= 1; the node fixes h = 12. The hash is a parameter. It is not
  assumed injective: binding theorems return an explicit collision.
- `BlockStorage`: saving blocks into five databases through write batches, the latest-block pointer, and
  proofs from stored records.

**Concurrent hash map and transaction pool.**

- `OmpHashMap`: the chained table with growth, refined to a map.
- `SegmentLocks`: the segment-lock protocol around it, as a state machine over the same chains.
- `TransactionPool`: the vector with stale entries and the live ids.

**Merger state machines and codecs.**

- `LayeredLedger`: unconfirmed blocks in memory over the ledger on disk.
- `SignerJoin`: the signer pool and the join handshake.
- `BpJobs`: the block-production job queue.
- `BlockFraming`: the byte builder and the framing of raw blocks.
- `JsonPointer`, `JsonResolver`: JSON-pointer escaping (sections 3 and 4 of RFC 6901) and schema URIs.

`Counting`, `ModArith`, `Wrappers`, `WriteBatches`, `ByteStrings` and `Decimal` hold shared definitions.

Where the code does not keep a promise on all inputs, the code is modelled, a lemma shows the failure, and another
says exactly when the promise holds:

- bucket counts: `OmpHashMap.PromiseFails`, and `OmpHashMap.LargeEnoughIff`;
- clearing a grown map: `OmpHashMap.ClearBreaksGrownMap`, and the contract of `OmpHashMap.OmpHashMap.Clear`;
- moving a block of the ledger to disk: `LayeredLedger.TwoRecordsChangeRead` and
  `LayeredLedger.EmptyValueChangesRead`, and `LayeredLedger.MoveKeepsReadIff` with `CommitKeepsReadIff`;
- the latest block: `BlockStorage.SameIdTwoHeights`, and `BlockStorage.SaveKeepsLatestIff` with `AlwaysRightIff`;
- JSON-pointer escapes of percent signs: `JsonPointer.UnescapedEscaped`, and `JsonPointer.RoundTripIff`;
- framing of long headers and empty signatures: `BlockFraming.FramedEnd`, and `BlockFraming.RoundTripIff`.

`fetchLastN(0)` behaves as `fetchLastN(1)`, and the model says so.

## Model

| member | source | states |
|---|---|---|
| `CircularIndex.CircularLessIsLess` | include/concurrentqueue.hpp:405-417 | on counters less than 2^63 apart the wrapped comparison is integer comparison, however often they wrapped |
| `CircularIndex.CircularLessAtHalf` | include/concurrentqueue.hpp:405-417 | the bound is tight: at distance 2^63 neither order holds |
| `TicketDequeue.RunKeepsInv` | include/concurrentqueue.hpp:2474-2542 | the ticket accounting (winners, losers, repaid tickets, claims) holds in every state of every run of single and bulk consumers |
| `TicketDequeue.WinnersFit` | include/concurrentqueue.hpp:2474-2485 | among the first n tickets the winners, up to the last one, number no more than the published elements: enough tickets below a winner had lost when it was decided |
| `TicketDequeue.HeadNeverPassesTail` | include/concurrentqueue.hpp:2474-2542 | headIndex plus the winners yet to advance it never exceeds tailIndex |
| `TicketDequeue.ClaimIsPublished` | include/concurrentqueue.hpp:2484-2485 | advancing headIndex only hands out indices already published |
| `TicketDequeue.IndexHandedOutOnce` | include/concurrentqueue.hpp:2695-2720 | every index below headIndex was handed to exactly one ticket, no other was, and no two tickets hold the same index |
| `TicketDequeue.QuiescentCountersAgree` | include/concurrentqueue.hpp:2474-2542 | with no consumer in flight, dequeueOptimisticCount - dequeueOvercommit == headIndex |
| `TicketDequeue.QuiescentDequeueIsExact` | include/concurrentqueue.hpp:2695-2710 | with no consumer in flight, a dequeue is refused exactly when no element remains, and otherwise asks for the right number of tickets |
| `TicketDequeue.DecisionsOnWords` | include/concurrentqueue.hpp:2479-2484 | the two 64-bit tests of the code decide as their integer versions in every reachable state |
| `BlockIndex.LookupLandsOnSlot` | include/concurrentqueue.hpp:2858-2874 | dividing the wrapped difference by an unsigned block size and masking lands on the wanted block's slot, for positive and negative offsets |
| `BlockIndexProof.StoreKeyPhases` | include/concurrentqueue.hpp:2816-2843 | every key put in a slot is congruent to its slot's earlier keys, in every header that shares the entry |
| `BlockIndexProof.GrowKeepsInv` | include/concurrentqueue.hpp:2876-2918 | doubling the index keeps every live block findable through old and new headers |
| `BlockIndexProof.RunKeepsInv` | include/concurrentqueue.hpp:2815-2918 | the index invariant holds over any run of inserts, rewinds, doublings, lookups and out-of-order releases |
| `BlockIndexProof.LookupFindsTheBlock` | include/concurrentqueue.hpp:2858-2874 | whichever published header, tail and tail key a consumer read after claiming, it is at the entry with its block's base as key and its block as value |
| `BlockIndexProof.ConsumerReadsItsItems` | include/concurrentqueue.hpp:2719-2784 | the cells a consumer reads hold exactly the elements enqueued at the indices it claimed |
| `BlockIndexProof.ReleaseIsExclusive` | include/concurrentqueue.hpp:1513-1550 | one consumer alone releases a block, and only after all its elements were emptied |
| `ImplicitQueue.RunKeepsInv` | include/concurrentqueue.hpp:2410-2542 | tickets and block index agree on published elements and head in every run of the whole sub-queue |
| `ImplicitQueue.WinnersCanClaim` | include/concurrentqueue.hpp:2484-2491 | winning tickets is enough: the block index can always serve the claim |
| `ImplicitQueue.DeliversEnqueuedElementsOnce` | include/concurrentqueue.hpp:2410-2542 | an element read is the one enqueued at an index that was published first and handed to this consumer alone |
| `ImplicitQueue.DeliveredOnceInRun` | include/concurrentqueue.hpp:2410-2542 | over a whole run an index is delivered under one claim alone, and once emptied it is never delivered again |
| `FreeList.RunKeepsInv` | include/concurrentqueue.hpp:1375-1454 | counts, flags, owners and links agree in every state of every interleaving of add and try_get |
| `FreeList.NeverListedTwice` | include/concurrentqueue.hpp:1375-1454 | following the pointers from the head spells out a list without repetition, of listed nodes only |
| `FreeList.RefsNeverWrap` | include/concurrentqueue.hpp:1366-1466 | the 32-bit word never overflows, and its top bit marks exactly the nodes waiting to be added |
| `FreeList.PopTakesTheHead` | include/concurrentqueue.hpp:1389-1430 | a successful head compare-exchange installs the head's current successor (no ABA) and takes a node with its flag clear off the list |
| `FreeList.HandedOutOnce` | include/concurrentqueue.hpp:1375-1454 | from any state of a run where a node is owned to any later one it stays owned and off the list unless it is added in between |
| `FreeList.QuiescentNodes` | include/concurrentqueue.hpp:1375-1454 | with no thread at work no node is lost: owned with count 0, or listed with count 1 |
| `BlockPool.RunKeepsInv` | include/concurrentqueue.hpp:2410-2471 | blocks never used, in hand, in use, returned and on the free list stay apart in every run of the block index and the free list together |
| `BlockPool.BlocksInUseAreApart` | include/concurrentqueue.hpp:2410-2471 | a block in use is off the free list and in nobody's hand, and a block in hand meets the guard under which the index stores it |
| `ProducerHash.RunKeepsInv` | include/concurrentqueue.hpp:3294-3442 | tables, probes, counts, values and the resize lock are in order in every run with any number of concurrent resizes |
| `ProducerHash.OneProducerPerThread` | include/concurrentqueue.hpp:3294-3442 | two calls return the same producer if and only if they are by the same thread |
| `ProducerHash.NeverFull` | include/concurrentqueue.hpp:3358-3430 | a table of capacity C never holds 3C/4 ids |
| `ProducerHash.ProbesEnd` | include/concurrentqueue.hpp:3313-3353 | every probe loop passes over fewer than 3C/4 slots, so it ends |
| `ProducerHash.CreatesOnce` | include/concurrentqueue.hpp:3397-3412 | a thread that creates a producer has none and is in no table |
| `ProducerHash.AllocationFits` | include/concurrentqueue.hpp:3363-3390 | a table just allocated is linked to the newest one, at least twice as large, and has room for the allocating thread |
| `ProducerHash.NewCapacity` | include/concurrentqueue.hpp:3367-3370 | the capacity loop finds the first doubling more than twice the count |
| `Semaphore.RunKeepsInv` | include/blockconcurrentqueue.hpp:260-405 | waiters are matched by kernel permits, promised releases and the negative count; permits are conserved; with timeouts, bulk waits and spurious failures |
| `Semaphore.PermitsAreBacked` | include/blockconcurrentqueue.hpp:260-405 | acquisitions never exceed initial plus signalled permits, and the difference is what is still available |
| `Semaphore.NoLostWakeup` | include/blockconcurrentqueue.hpp:396-405 | once m_count >= 0 each unresolved waiter is matched by a posted or promised kernel release |
| `Semaphore.HolderHasElement` | include/blockconcurrentqueue.hpp:690-731 | undequeued elements number at least the permits held, so every retry loop has an element to find |
| `Semaphore.AsleepMeansEmpty` | include/blockconcurrentqueue.hpp:755-761 | if every thread is idle or asleep with no kernel permit left and one sleeps, the queue is empty |
| `Semaphore.WaitEndsWithPermitOrTimeout` | include/blockconcurrentqueue.hpp:260-333 | over a run a wait that may block goes on until the thread has a permit or its kernel wait times out |
| `MerkleTree.MerkleTree.MakeParent` | src/chain/merkle_tree.hpp:145-154 | the parent is the hash of both children, cached or computed |
| `MerkleTree.MerkleTree.Generate` | src/chain/merkle_tree.hpp:46-63 | the array holds the tree over the zero-padded digests, and its last element is the recursively defined Merkle root |
| `MerkleTree.FlatIsTree` | src/chain/merkle_tree.hpp:46-63 | node i of level l sits at the level's offset plus i |
| `MerkleTree.LastIsRoot` | src/chain/merkle_tree.hpp:46-63 | the node at 2N-2 is the recursive root |
| `MerkleTree.IsValidSiblings` | src/chain/merkle_tree.hpp:102-130 | accepts exactly the non-empty lists that start with the leaf and fold to the root |
| `MerkleTree.CollectSiblings` | src/services/storage.cpp:489-527 | the index arithmetic visits the neighbour on every level: the collected proof is accepted, or cleared because the neighbouring digest is empty |
| `MerkleTree.BuildProof` | src/services/storage.cpp:476-527 | the proof rebuilt from the stored digests is accepted against their Merkle root |
| `MerkleTree.PathBinding` | src/chain/merkle_tree.hpp:102-130 | two different paths with the same sides and result contain two inputs of the same hash |
| `MerkleTree.ProofBinding` | src/chain/merkle_tree.hpp:102-130 | two accepted proofs for one root with the same sides but different leaves give a collision |
| `MerkleTree.RootBinding` | src/chain/merkle_tree.hpp:46-63 | two different leaf lists with the same root give a collision |
| `MerkleTree.TreeBinding` | src/chain/merkle_tree.hpp:46-63 | two digest lists whose trees end in the same root have the same padded leaves or give a collision |
| `BlockStorage.KeyTextInjective` | src/services/storage.cpp:88-116 | different keys of the program have different texts, given ids without '_' |
| `BlockStorage.Storage.PutBlockHeader` | src/services/storage.cpp:139-171 | fails exactly when signatures or transaction ids are no array, and otherwise queues the header's writes |
| `BlockStorage.Storage.PutLatestBlockHeader` | src/services/storage.cpp:198-219 | queues the latest-block entry only for a block higher than the latest on record |
| `BlockStorage.Storage.PutTransaction` | src/services/storage.cpp:221-262 | fails exactly when the transactions are no array, and otherwise queues content, position and block of each |
| `BlockStorage.Storage.SaveBlock` | src/services/storage.cpp:49-69 | all five databases change together or not at all, and no pending write is left behind |
| `BlockStorage.LatestIsFirstHighest` | src/services/storage.cpp:198-219 | when every save is safe after those before it, the latest-block entry names the first-saved block of the greatest height ever saved, with its height |
| `BlockStorage.ProperIsSafe` | src/services/storage.cpp:198-219 | saves under ids that determine positive heights are safe |
| `BlockStorage.SaveKeepsLatestIff` | src/services/storage.cpp:198-219 | given a right latest-block entry, a save leaves it right if and only if the block is above the height on record when it is above the entry's height, and otherwise is not taken for higher or is the block the entry names |
| `BlockStorage.AlwaysRightIff` | src/services/storage.cpp:198-219 | over any sequence of saves the latest-block entry is right after every one if and only if every save is safe after those before it, in terms of the blocks saved |
| `BlockStorage.RecordIsLastHeight` | src/services/storage.cpp:340-371 | the height on record for an id, which the latest-block entry is compared with, is that of the last block saved under it |
| `BlockStorage.SameIdTwoHeights` | src/services/storage.cpp:198-219 | if an id is saved at two heights, a lower block can become the latest |
| `BlockStorage.SavedRecords` | src/services/storage.cpp:221-262 | a saved block has each of its transactions on record under position, block and leaves |
| `BlockStorage.StaysOnRecord` | src/services/storage.cpp:221-262 | a transaction stays on record through all later saves of other blocks |
| `BlockStorage.SavedIsProvable` | src/services/storage.cpp:462-531 | every transaction of every saved block of at most 2^h transactions with different ids meets the condition of GetProof, through all later saves of other blocks |
| `BlockStorage.LastSaveIsRead` | src/services/storage.cpp:175-196 | the bytes and hash stored under an id are those of the last block saved with it, and the id stored under a height that of the last block saved there |
| `BlockStorage.StoredTreeRegenerates` | src/chain/block.hpp:240-251 | the tree regenerated from what a block stores is the block's own, even with more transactions than leaves, and with no more what it stores are the digests |
| `BlockStorage.HonestLeaf` | src/chain/block.hpp:240-251 | for a block that stores its own tree, what is proved of a transaction is its digest, against the last node of the block's tree |
| `BlockStorage.Storage.GetProof` | src/services/storage.cpp:462-531 | for every transaction on record the proof names its block and is accepted against the block's Merkle root; without a stored position the call raises an exception |
| `OmpHashMap.DivideOut` | include/omp_hash_map.h:243-250 | the loop takes the factor 15858 out up to three times |
| `OmpHashMap.LookUp` | include/omp_hash_map.h:252-260 | the binary search finds the first table entry that is large enough |
| `OmpHashMap.RehashingBuckets` | include/omp_hash_map.h:234-263 | the bucket count is factor times the least table entry from the quotient on; an exception exactly when the quotient is still too large |
| `OmpHashMap.LargeEnoughIff` | include/omp_hash_map.h:235-236 | the count is at least the argument if and only if the quotient is no table entry or nothing was lost in dividing |
| `OmpHashMap.SmallIsExact` | include/omp_hash_map.h:234-263 | up to 104729 the count is the least table entry that is large enough |
| `OmpHashMap.PromiseFails` | include/omp_hash_map.h:235-236 | 180000 gets 174438 buckets |
| `OmpHashMap.OmpHashMap.Set` | include/omp_hash_map.h:266-279 | the map changes at this key alone, the bucket count grows exactly as computed, and with load factor 1 keys never outnumber buckets up to 104729 keys |
| `OmpHashMap.OmpHashMap.Unset` | include/omp_hash_map.h:315-324 | the map loses this key alone, and the key count follows |
| `OmpHashMap.OmpHashMap.Has` | include/omp_hash_map.h:327-334 | answers membership in the map |
| `OmpHashMap.OmpHashMap.GetCopyOrDefault` | include/omp_hash_map.h:337-344 | answers the map's value or the default |
| `OmpHashMap.OmpHashMap.Rehash` | include/omp_hash_map.h:198-231 | never shrinks, and loses and duplicates nothing |
| `OmpHashMap.MoveAll` | include/omp_hash_map.h:207-226 | in whatever order the buckets give up their last nodes, the new table represents the same map |
| `OmpHashMap.OmpHashMap.Clear` | include/omp_hash_map.h:393-405 | empties the map, and leaves it in order if and only if it had not grown |
| `OmpHashMap.TwelveKeys` | include/omp_hash_map.h:266-279 | twelve sets of different keys grow the map to 17 buckets |
| `OmpHashMap.ClearBreaksGrownMap` | include/omp_hash_map.h:393-405 | so a reachable map is out of order after clear |
| `SegmentLocks.RunKeepsInv` | include/omp_hash_map.h:408-438 | locks, snapshots, copies and table agree in every interleaving of operations and growth |
| `SegmentLocks.OperationIsAtomic` | include/omp_hash_map.h:408-426 | past the re-check an operation holds the lock of its key's bucket in the current table, and its write is the whole operation on the map of that moment, with that map's answer |
| `SegmentLocks.GrowthIsExclusive` | include/omp_hash_map.h:198-231 | bucket count and table change only with every lock held by the thread that changes them, and the map only by an operation's write |
| `SegmentLocks.RefinesMap` | include/omp_hash_map.h:198-334 | whenever no rebuild is under way the table represents the abstract map |
| `SegmentLocks.KeysAreCounted` | include/omp_hash_map.h:266-324 | n_keys is the size of the map but for the operations that changed it and have yet to count, and exact when there are none |
| `SegmentLocks.CountNeverUnderflows` | include/omp_hash_map.h:315-324 | n_keys never goes below zero |
| `SegmentLocks.EditIsEffect` | include/omp_hash_map.h:441-465 | editing the key's own chain is the operation on the map |
| `SegmentLocks.NoDeadlock` | include/omp_hash_map.h:468-475 | while some operation is unfinished, some unfinished one can step |
| `TransactionPool.TransactionPool.Push` | src/services/transaction_pool.cpp:8-18 | adds exactly the transactions whose id is not live |
| `TransactionPool.TransactionPool.Pop` | src/services/transaction_pool.cpp:35-51 | succeeds exactly when an id is live, with the newest live transaction |
| `TransactionPool.TransactionPool.FetchLastN` | src/services/transaction_pool.cpp:53-68 | returns the newest copies of min(max(n,1), live) different live ids, newest first, and removes exactly those |
| `TransactionPool.TransactionPool.RemoveDuplicatedTransactions` | src/services/transaction_pool.cpp:70-84 | removes exactly the listed ids |
| `TransactionPool.TransactionPool.Size` | src/services/transaction_pool.cpp:86 | the size is the number of transactions that can be fetched |
| `TransactionPool.NewestFromIs` | src/services/transaction_pool.cpp:53-68 | the newest copies are listed completely and in descending order |
| `TransactionPool.NewestCount` | src/services/transaction_pool.cpp:86 | stale entries do not count: there are as many as live ids |
| `LayeredLedger.LayeredStorage.Append` | src/chain/mem_ledger.hpp:45-57 | every record of the other ledger is added, its key wrapped in the prefix |
| `LayeredLedger.LayeredStorage.GetVal` | src/chain/mem_ledger.hpp:59-72 | finds the first record of the key in the block |
| `LayeredLedger.LayeredStorage.GetKV` | src/chain/mem_ledger.hpp:74-84 | collects the block's pairs in order |
| `LayeredLedger.LayeredStorage.DropKV` | src/chain/mem_ledger.hpp:86-91 | removes exactly the block's records |
| `LayeredLedger.LayeredStorage.ReadLedgerByKey` | src/services/layered_storage.hpp:45-67 | reads the newest layer with a record, or the disk when there is none or its value is empty |
| `LayeredLedger.LayeredStorage.MoveToDiskLedger` | src/services/layered_storage.hpp:73-83 | writes the block's pairs after what was pending and drops the block from memory |
| `LayeredLedger.MoveKeepsReadIff` | src/services/layered_storage.hpp:45-87 | moving the oldest block of a layer list to disk keeps the read of a key if and only if a newer layer shows a value, or the block has no record and no pending write changes the key, or its last record says what was shown; with the list kept or shortened |
| `LayeredLedger.MoveKeepsReads` | src/services/layered_storage.hpp:45-87 | in particular with at most one record for the key, no empty value for it and no pending write to it |
| `LayeredLedger.CommitIsReplay` | src/services/layered_storage.hpp:73-87 | committing a chain oldest first leaves the disk as replaying all its writes would |
| `LayeredLedger.CommitKeepsReadIff` | src/services/layered_storage.hpp:45-87 | once a chain is committed the disk shows what its layers showed for a key if and only if no layer has a record or the last record of the newest one that has says what was shown |
| `LayeredLedger.CommitKeepsReads` | src/services/layered_storage.hpp:45-87 | in particular with at most one record for the key in each block, and no empty value for it |
| `LayeredLedger.TwoRecordsChangeRead` | src/chain/mem_ledger.hpp:59-84 | with two records for one key the read changes from the first to the second |
| `LayeredLedger.EmptyValueChangesRead` | src/services/layered_storage.hpp:45-67 | with an empty value in a newer block the read changes |
| `SignerJoin.SignerPool.PushSigner` | src/services/signer_pool.cpp:7-27 | appends a new signer or overwrites the one with the same id |
| `SignerJoin.SignerPool.UpdateStatus` | src/services/signer_pool.cpp:59-72 | sets the status of a signer in the pool, and says whether it is there |
| `SignerJoin.SignerPool.RemoveSigner` | src/services/signer_pool.cpp:74-86 | takes the signer off the pool, and says whether it was there |
| `SignerJoin.SignerPool.NumSignerBy` | src/services/signer_pool.cpp:104-110 | counts the signers with a status |
| `SignerJoin.SignerPool.RandomSigners` | src/services/signer_pool.cpp:120-134 | chooses as many good signers as asked, with different ids |
| `SignerJoin.SignerPoolManager.HandleMessage` | src/services/signer_pool_manager.cpp:13-156 | new table, new pool and reply for every message, accepted or refused |
| `SignerJoin.PoolFollows` | src/services/signer_pool_manager.cpp:13-156 | in every run ids in the pool are unique, and each signer's entry has the certificate and key of its standing RESPONSE_1 and the status its messages say |
| `SignerJoin.GoodIff` | src/services/signer_pool_manager.cpp:45-153 | a signer is good if and only if it has an accepted RESPONSE_1, then an accepted SUCCESS, with no LEAVE and no newer accepted RESPONSE_1 since |
| `SignerJoin.AcceptedMeans` | src/services/signer_pool_manager.cpp:200-205 | an accepted RESPONSE_1 verifies against the nonce of the latest accepted JOIN; it and an accepted SUCCESS come within 10 seconds of that JOIN |
| `SignerJoin.EntryIsLatestJoin` | src/services/signer_pool_manager.cpp:19-43 | a pending join entry has the nonce and time of the latest accepted JOIN |
| `SignerJoin.ChosenAreGood` | src/services/signer_pool.cpp:120-134 | the signers chosen at any time of any run are different and good |
| `BpJobs.TransactionCollector.SetTxCollectStatus` | src/services/transaction_collector.cpp:72-101 | the planned jobs for every pair of statuses |
| `BpJobs.TransactionCollector.CheckBpJob` | src/services/transaction_collector.cpp:114-125 | takes the first job, and asks for signatures only for a job to do with a filled pool |
| `BlockFraming.MetaWithHeader` | src/chain/block.hpp:412-421 | the signed part: algorithm, header end modulo 2^32, compressed header |
| `BpJobs.QueueIs` | src/services/transaction_collector.cpp:72-125 | which announcement decided each queued job |
| `BpJobs.JobsFollowAnnouncements` | src/services/transaction_collector.cpp:72-125 | with one announcement per interval the queue has length 3, and the job of the tick after announcement t + 1 is one to do exactly if announcement t is primary, or t - 1 turned secondary |
| `BlockFraming.BytesBuilder.Append` | src/utils/bytes_builder.hpp:31-54 | growing builder takes the bytes, a fixed one only if they fit |
| `BlockFraming.BytesBuilder.AppendInt` | src/utils/bytes_builder.hpp:93-109 | the low bytes, most significant first |
| `BlockFraming.BigEndianRoundTrip` | src/utils/bytes_builder.hpp:93-109 | reading the bytes back gives the number modulo 256^n |
| `BlockFraming.Finalize` | src/chain/block.hpp:187-199 | algorithm byte, 32-bit header end, header, signature over these |
| `BlockFraming.FramedEnd` | src/chain/block.hpp:459-472 | where the parser finds the header end of a framed block, including lengths that set the sign bit or exceed 32 bits |
| `BlockFraming.RoundTripIff` | src/chain/block.hpp:474-495 | parsing gives back signed part and signature if and only if header length + 5 < 2^31 and the signature is not empty |
| `BlockFraming.PartsMakeWhole` | src/chain/block.hpp:474-495 | with a header end found, the two parts concatenate to the input |
| `JsonPointer.Escape` | include/json-uri.cpp:166-187 | the three passes replace each '~', '/' and '%' once |
| `JsonPointer.Unescape` | include/json-uri.cpp:130-164 | the loop from the right decodes "~0" and "~1" as reading from the left would |
| `JsonPointer.PassesAreEscaping` | include/json-uri.cpp:166-187 | the passes do not escape each other's output |
| `JsonPointer.RoundTripIff` | include/json-uri.cpp:130-187 | unescape(escape(s)) == s if and only if s has no '%' |
| `JsonPointer.EscapedInjective` | include/json-uri.cpp:166-187 | different strings have different escapes |
| `JsonPointer.NoSlash` | include/json-uri.cpp:166-187 | an escaped string has no '/' |
| `JsonPointer.UnescapedEscaped` | include/json-uri.cpp:130-187 | unescaping an escaped string leaves only its percent signs escaped |
| `JsonResolver.Resolver.Resolve` | include/json-validator.cpp:49-94 | enters exactly the sub-schemas of the walk, and fails exactly when a URI comes up twice |
| `JsonResolver.RefsOk` | include/json-validator.cpp:49-94 | without "id" fields the URIs of all sub-schemas lie below the schema's and are pairwise different |
| `JsonResolver.PlainSchemaResolves` | include/json-validator.cpp:49-94 | a schema without "id" fields resolves, and each sub-schema is found under a URI of its own |

## Left out

- Weak memory orderings: the state machines are sequentially consistent.
- Allocation failure, exceptions thrown by element constructors, recycling of producers, queue move, swap and destruction, tokens and explicit producers: the node uses implicit producers only, and the first three are excluded from the modelled runs.
- enqueue_bulk of the implicit producer is modelled for the tickets (a batch is published at once) but not for the block index.
- The kernel semaphore enters as a counter; its release count is not cut to a 32-bit int.
- FreeList.RefsNeverWrap assumes fewer than 2^31 - 2 threads, which is what the packed word is built for.
- TicketDequeue.DecisionsOnWords assumes fewer than 2^63 elements and tickets.
- OmpHashMap.OmpHashMap.Set models set with a value; the two forms with a setter function, map, map_reduce and apply are left out.
- Chains of the hash map are sequences of nodes; the owning pointers between nodes are not modelled.
- BlockPool models one producer's block index; what other producers do with blocks enters as taking, using and returning them.
- SegmentLocks leaves out clear and the operations over all keys; growth may start at any time with any count, which covers the unsynchronised load check.
- TransactionPool leaves out clear, which unlocks its mutex twice, and the push mutex.
- Base64, JSON, CBOR, decimal text, LZ4, ECDSA, ECDH, HMAC and SHA-256 enter as values or parameters.
- LevelDB enters as maps, and a crash between the five writes of a commit is not modelled.
- Block heights are natural numbers, not text; text that is no number raises an exception in the code and is left out.
- BlockStorage leaves out readBlock, getNthTxIdList and the backup database.
- SignerJoin leaves out message delivery, the HMAC check before SUCCESS, and any bound on the pool: only JOIN checks it.
- SignerJoin.SignerPool.RandomSigners requires as many good signers as asked for, since the code reads past the end otherwise.
- BlockFraming.Finalize requires lengths below 2^31, since the builder casts them to int.
- JsonResolver leaves out "$ref" fields and treats the effect of an "id" field as a parameter; the rest of the validator is left out.
- omp_hash_set, logging, settings, argument parsing, message validation, the block processor, the scheduler and communication: plumbing, or copies of what is modelled.
