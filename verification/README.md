# Verified models of the go-quai core

go-quai runs a three-level hierarchy of chains: prime, its regions, and their zones. This project models the
stateful algorithms of its `core` and `event` packages in Dafny and proves what they keep over whole chains and
whole runs. `dafny verify dfyconfig.toml` checks everything.

Databases are maps. A hash is a natural number that stands for the header or transaction it identifies, and a list
stands for its own derived hash. Signatures, the EVM, the consensus engine, clocks and the network appear as
parameters, as arbitrary choices, or as functions with a stated assumption (about the EVM only that it returns no more
gas than it got, `StateTransition.GasBounded`). Objects that the program updates in place are classes with the same fields; loops are loops.

| file | subject |
|---|---|
| `Common`, `BlockTree`, `Balances`, `Heap`, `Transactions` | shared names, the block store of one node, sums over balances, Go's `container/heap`, nonce-indexed collections |
| `CanonicalIndex` | the number-to-hash index, ancestor lookups, the memoising block-hash closure |
| `Pcrc` | the hierarchical append and its previous coincident reference check, as a protocol of all nodes |
| `Rollup`, `ConfirmedEtxs` | manifests and ETX rollups across nodes, confirmation windows |
| `SortedMap`, `TxList`, `Lookup`, `PricedList` | the pool's data structures |
| `Filing`, `WaterFilling`, `QueueTrimming`, `PoolMoves`, `TxPool` | the pool itself: one partition invariant kept by every operation, and what each operation moves or drops |
| `ResetWalk`, `ReorgScheduler` | the reorganisation walk and the request-coalescing loop |
| `Feed`, `ChainIndexer` | exactly-once delivery with an aliased prefix; section indexing without the lock |
| `Gas`, `StateTransition`, `StateProcessor` | gas, value and ETX accounting of messages, blocks and chains |

Two preconditions come from elsewhere in the program: `TruncatePending` needs a grant of at least one slot per
account, which sanitising the configuration ensures (core/tx_pool.go:191-226), and nonces and gas limits are 64-bit
numbers.

Where code and documentation differ, the model follows the code. Eight places where an expected property does not
hold as one would first state it, each with the exact condition under which it does:

- Value is not always conserved by an execution. A call that fails gets its balances back, but the ETXs it has emitted
  stay in the cache and leave (`FailedFrameKeepsEtxs`). The opcode for ETXs takes its funds before it decodes the access
  list, in 256-bit arithmetic and for a gas limit that it then cuts to 64 bits (`OpEtxConserves`). So the value clauses
  of `TransitionDb` and `Process` are exact equations with a term for what vanished in the executions.
- The rollup committed on a genesis block that emits ETXs counts them twice unless the engine calls the genesis
  coincident. `RollupIsManifest` gives the exact condition and `EmittingGenesisIsCountedTwice` a witness.
- `GetAncestor` asked for the empty hash above the head mistakes the missing index entry for a match and answers
  from the index. The contract of `HeaderChain.GetAncestor` states when, and `EmptyHashIsAnswered` is such a call.
- A price heap may hold a live transaction twice: `RemoveAndAddAgain` is a run that ends so. Evicting it then frees
  its slots only once. `RepeatsAreTaken` and `EvictionFrees` show that requests take an entry twice, and free less than
  they count, exactly if the heaps they start from repeat an entry. `Add` bounds the pool when none is repeated;
  `AddOverfills` exceeds the bound with a newcomer of ordinary size, `OverfillingRun` is a whole run of the pool that
  does, and `LargeOverfills` finds a newcomer for any repeated entry.
- The loan for an inbound ETX converts its gas limit to a signed number. `LoanCovers` shows that funds are missing
  exactly when that wraps around and the ETX offers any fee; `WrappedLoanFails` is such an ETX.
- When the backend of a chain indexer cannot reset, its sections are rolled back without the lock, and a
  reorganisation may roll back at the same time. `RaceSurvives` shows for all interleavings of the statements of the two
  that the heads are those of the valid sections exactly if the assignment of zero comes last and every section that
  was skipped is removed later. `RaceLoses`, `RaceSkips` and `RaceWraps` are interleavings that go wrong. `Run` keeps the
  invariant of the indexer as long as the iterations of two such rollbacks do not overlap and zero is assigned last.
- The lookup set counts a transaction that is added twice twice. The contract of `TxLookup.Add` says exactly when its
  counter stays right; the pool never adds one twice.
- A block asked for under another number is found if its header is cached, since the cache does not compare numbers.
  `WalkFromStray` and `WalkBelowGenesis` give the exact answers.

## Model

| member | source | states |
|---|---|---|
| `CanonicalIndex.HeaderChain.FindCommonAncestor` | core/headerchain.go:386-398 | climbs down to the highest block of the given chain that the index names; everything above it on that chain is not in the index |
| `CanonicalIndex.HeaderChain.SetCurrentHeader` | core/headerchain.go:326-383 | for an extension, a side chain or a rollback, the index afterwards is exactly the chain of the new head, with nothing above it |
| `CanonicalIndex.HeaderChain.StackAbove` | core/headerchain.go:350-363 | collects exactly the new chain strictly above the common ancestor, newest first, and terminates |
| `CanonicalIndex.HeaderChain.DeleteAbove` | core/headerchain.go:365-376 | deletes exactly the old chain's entries above the common ancestor, never genesis |
| `CanonicalIndex.HeaderChain.WriteStack` | core/headerchain.go:378-382 | writing the stack oldest first makes the index the new chain |
| `CanonicalIndex.HeaderChain.Replay` | core/headerchain.go:326-398 | along any sequence of appends and head changes exactly the new linked headers are stored and exactly the stored heads are taken, and at the end the index is the current chain, genesis is indexed at 0, and no stored header has changed |
| `CanonicalIndex.HeaderChain.GetAncestor` | core/headerchain.go:534-566 | for a block under its own number the answer is the true ancestor exactly when the walk to the index fits the allowance, the empty result otherwise, and the allowance is charged one per step; the exact answer for a hash that is not stored and for a block under another number, above and below genesis |
| `CanonicalIndex.HeaderChain.WalkFromStray` | core/headerchain.go:545-565 | under another number the index never answers; the true ancestor is returned exactly if every block on the way is cached and the allowance lasts |
| `CanonicalIndex.HeaderChain.WalkBelowGenesis` | core/headerchain.go:545-565 | asked for more ancestors than the block has, under another number, the walk goes on with the empty hash exactly if all its ancestors are cached and the allowance lasts |
| `CanonicalIndex.HeaderChain.EmptyHashIsAnswered` | core/headerchain.go:546-552 | a call with the empty hash that is answered with the genesis block |
| `CanonicalIndex.HeaderChain.IndexAnswers` | core/headerchain.go:546-552 | for a block the index names, the index entry k below is the k-th ancestor |
| `CanonicalIndex.HashFn.PositionAnswers` | core/evm.go:84-115 | the cache position computed with 64-bit wrap-around names the answer of a fresh parent walk, for every number |
| `CanonicalIndex.HashFn.GetHash` | core/evm.go:84-115 | whatever was asked before, a query is answered as by a fresh walk, and the cache stays a prefix of the ancestors' hashes |
| `CanonicalIndex.HashFn.GetHashes` | core/evm.go:84-115 | the same for every sequence of queries |
| `Pcrc.Pcrc` | core/slice.go:422-466 | fails exactly when the parent's termini are missing or malformed or, for a block from above, disagree with the terminus handed down; otherwise returns the new termini and the terminus to hand down (none in a zone) |
| `Pcrc.StoreInv` | core/slice.go:445-466 | storing an admitted block keeps all termini equal to scans of the ancestry |
| `Pcrc.AppendInv` | core/slice.go:133-236 | a hierarchical append keeps the invariant of all nodes, whichever validation, connection or write fails on the way |
| `Pcrc.AppendEffect` | core/slice.go:133-242 | an append succeeds at a node exactly if the block fits there, is accepted, goes through at the nodes below where these are connected, and is written; every node that writes gains exactly this block, with its link in that context and the termini of the check, marked as handed down exactly below the entry node; every other node is unchanged |
| `Pcrc.RunInv` | core/slice.go:133-236 | every run of the hierarchy keeps it, from the genesis termini on |
| `Pcrc.RunAppends` | core/core.go:71-75 | so in every run an insertion of a block of the node's own order does exactly this to the state reached so far, and any other changes nothing |
| `Pcrc.FirstBlockIsStored` | core/slice.go:133-242 | a run that ends with a prime block on genesis stored at prime, region and zone |
| `Pcrc.SharedCameDown` | core/core.go:71-75 | since a node appends on its own only blocks of its own order, a block that a node and its subordinate have both stored was handed down |
| `Pcrc.TerminiAreScans` | core/slice.go:422-466 | in every reachable state the stored termini of every block are what naive ancestry scans give |
| `Pcrc.PcrcAgreement` | core/slice.go:177-218 | in every reachable state, for every node, subordinate and block that both have stored, the blocks that came down along the subordinate's chain are exactly that subordinate's blocks along the dominant chain, in order |
| `Rollup.InclusiveIsManifest` | core/headerchain.go:250-276 | the recursive rollup is the concatenated ETXs of the blocks since the last coincident one |
| `Rollup.RollupIsManifest` | core/worker.go:892-906 | the rollup a zone commits on a block is the ETXs of exactly that block's manifest, if and only if the block is not an uncoincident genesis with ETXs |
| `Rollup.EmittingGenesisIsCountedTwice` | core/headerchain.go:239-248 | a genesis for which the two differ |
| `Rollup.Worker.FinalizeAssemble` | core/worker.go:868-911 | writes the manifest that an ancestry scan gives and returns the rollup of exactly that manifest |
| `Rollup.Worker.Append` | core/worker.go:868-911 | over any chain every stored manifest stays the ancestry scan, and each new rollup is that of its manifest; exactly the given block is added, marked as the engine says |
| `Rollup.CollectSubRollup` | core/headerchain.go:118-163 | the region returns the committed rollup exactly when the gathered entries equal it; prime gathers region by region; a missing entry gives no result; a zone gathers nothing |
| `Rollup.GatherAll` | core/headerchain.go:118-163 | gathering succeeds exactly when every entry has arrived |
| `Rollup.RegionRebuildsRollup` | core/headerchain.go:145-160 | from the zone's manifest the region rebuilds exactly the committed rollup once the entries are there, so its comparison never fails |
| `Rollup.PrimeConcatenatesRegions` | core/headerchain.go:126-143 | prime sees the concatenation of what its regions rebuilt |
| `ConfirmedEtxs.CollectsWindow` | core/slice.go:364-419 | a call returns, oldest first, the filtered rollups of the blocks after the latest ancestor from the same zone, and fails exactly when one of them is incomplete |
| `ConfirmedEtxs.ReturnsWhatIsDue` | core/types/transaction.go:450-471 | an ETX is returned exactly if some block of the window has it in its rollup, it goes to the slice, and origin and destination make it one that this context confirms |
| `ConfirmedEtxs.AllAccounted` | core/slice.go:364-419 | along a chain everything confirmed to a slice is delivered by a call or still outstanding, in order |
| `ConfirmedEtxs.WindowsCoverChain` | core/slice.go:364-419 | concatenating the calls for one zone's blocks equals filtering the whole chain's rollups once |
| `Heap.UpHeap` | core/tx_list.go:38-40 | sifting up restores the heap order |
| `Heap.DownHeap` | core/tx_list.go:42-48 | sifting down restores the heap order |
| `Heap.InitHeap` | core/tx_list.go:114-121 | heapifying any sequence gives a heap |
| `Heap.RemoveHeap` | core/tx_list.go:175-180 | removing any position keeps the heap, whichever way the replacement moves |
| `Heap.FirstIsLeast` | core/tx_list.go:88-90 | the root is a least element |
| `Transactions.ListsUnique` | core/tx_list.go:216-227 | a collection has one sorted listing |
| `Transactions.SplitList` | core/tx_list.go:94-97 | cutting a collection at a nonce cuts its listing at the same count, which makes shifting the cache sound |
| `SortedMap.TxSortedMap.Put` | core/tx_list.go:73-79 | stores under the nonce; the heap holds exactly the map's nonces, each once |
| `SortedMap.TxSortedMap.Forward` | core/tx_list.go:84-99 | removes exactly the nonces below the threshold, returns them in order, and the shifted cache is still the sorted contents |
| `SortedMap.TxSortedMap.FilterItems` | core/tx_list.go:125-139 | removes and enumerates exactly the selected transactions |
| `SortedMap.TxSortedMap.Reheap` | core/tx_list.go:114-121 | rebuilds the heap from the map in any order |
| `SortedMap.TxSortedMap.Filter` | core/tx_list.go:105-112 | the same with a valid index afterwards |
| `SortedMap.TxSortedMap.Cap` | core/tx_list.go:143-164 | keeps exactly the lowest nonces up to the limit, returns the others highest first, and the trimmed cache is still the sorted contents |
| `SortedMap.TxSortedMap.Remove` | core/tx_list.go:168-186 | deletes the nonce from map and heap |
| `SortedMap.TxSortedMap.Ready` | core/tx_list.go:194-209 | takes the longest gap-free run from the lowest nonce, nothing exactly if all nonces are above the start |
| `SortedMap.TxSortedMap.Flatten` | core/tx_list.go:216-236 | returns the sorted contents, cached or not |
| `SortedMap.TxSortedMap.LastElement` | core/tx_list.go:241-244 | returns the transaction with the highest nonce of a non-empty map |
| `TxList.CutContiguous` | core/tx_list.go:250-258 | either part of a gap-free list cut at a nonce is gap-free |
| `TxList.TxList.Add` | core/tx_list.go:279-312 | accepts exactly if the nonce is free or both fee cap and tip exceed the old ones by the bump percentage; the caps keep bounding every stored transaction |
| `TxList.TxList.Forward` | core/tx_list.go:317-319 | removes the low nonces; a gap-free list stays gap-free |
| `TxList.TxList.Filter` | core/tx_list.go:330-359 | with or without the short circuit, leaves what an unconditional scan leaves; in strict mode also drops all above the lowest offender, and a gap-free list stays gap-free |
| `TxList.AboveLowest` | core/tx_list.go:343-357 | filtering above the lowest removed nonce is filtering what lies above any removed one |
| `TxList.TxList.Cap` | core/tx_list.go:363-365 | keeps the lowest nonces; a gap-free list stays gap-free |
| `TxList.TxList.Remove` | core/tx_list.go:370-382 | removes the nonce and in strict mode everything above it; a gap-free list stays gap-free |
| `TxList.TxList.Ready` | core/tx_list.go:390-392 | takes the ready run of the list |
| `Lookup.TxLookup.Add` | core/tx_pool.go:1939-1951 | adds to one of the two sets and counts the slots; the counter is the sum over all, and the sets stay disjoint, exactly if the transaction was new or has no slots and stays on its side |
| `Lookup.TxLookup.Remove` | core/tx_pool.go:1954-1971 | removes from either set and gives the slots back, or changes nothing |
| `Lookup.TxLookup.RemoteToLocals` | core/tx_pool.go:1975-1988 | moves exactly the given accounts' transactions; the whole set is the same and the count is right |
| `PricedList.CheaperIsOrder` | core/tx_list.go:429-453 | the price comparison is a strict weak order for every base fee |
| `PricedList.PriceOrder` | core/tx_list.go:441-453 | a transaction compares as less exactly if its tip under the base fee is lower, or that is equal and its fee cap is lower, or both are equal and its tip cap is lower; without a base fee the fee cap comes first |
| `PricedList.PricedList.Put` | core/tx_list.go:500-506 | a remote transaction enters the urgent heap |
| `PricedList.PricedList.Removed` | core/tx_list.go:511-519 | leaves the heaps as they are exactly while the stale counter is within a quarter of their entries, and otherwise rebuilds them to hold each remote transaction once |
| `PricedList.PricedList.Underpriced` | core/tx_list.go:523-551 | true exactly if there is a remote transaction and none in either heap is cheaper; without a base fee, exactly if there is one and none has a lower fee cap, or the same and a lower tip cap; only stale entries leave the heaps, and the stale counter falls by one for each |
| `PricedList.UnderpricedByCaps` | core/tx_list.go:531-551 | the same on the caps: no live urgent entry pays less than the newcomer under the base fee and no live floating one pays less without |
| `PricedList.PricedList.Discard` | core/tx_list.go:557-593 | terminates; takes just enough of the cheapest entries, first those that floated all along and then those no dearer than all still urgent; what was not floating before pays no more than any entry left urgent, and without repeated entries no live entry left floating from before has a lower fee cap than an evicted one; succeeds exactly if forced or if all live entries together suffice; an unforced failure puts every live entry back as often as before; the stale counter falls by one for each stale entry that leaves |
| `PricedList.CheapestPaysLeast` | core/tx_list.go:557-593 | evicting by the heap order is evicting by what the transactions pay, stated on their caps |
| `PricedList.RepeatsAreTaken` | core/tx_list.go:557-593 | no request takes an entry twice if the heaps repeat none; a request for more than they count takes one twice if and only if they repeat one |
| `PricedList.EvictionFrees` | core/tx_pool.go:737-742 | likewise, removing what was taken frees the slots counted for it if no heap entry is repeated, and for such a request only then |
| `PricedList.CountedOnce` | core/tx_list.go:557-593 | heaps that hold every remote transaction count at least their slots, and exactly these if and only if none is repeated |
| `PricedList.FreedSlots` | core/tx_pool.go:737-742 | removing a list of evicted transactions frees the slots counted for it if and only if none occurs twice |
| `PricedList.RemoveAndAddAgain` | core/tx_list.go:500-519 | adding, removing and adding a transaction again, with enough others in the heaps, leaves it in them twice |
| `PricedList.LeaderAlone` | core/tx_list.go:557-593 | a request within twice the slots of a repeated entry that is the cheapest and floats alone takes nothing else |
| `PricedList.PricedList.Reheap` | core/tx_list.go:596-618 | the heaps hold exactly the remote transactions, each once, a fifth of them floating, none of which pays more than any urgent one |
| `PricedList.PricedList.SetBaseFee` | core/tx_list.go:622-625 | rebuilds the heaps under the new base fee |
| `Filing.IntoQueue` | core/tx_pool.go:796-835 | a demoted transaction never meets a queued one with its nonce |
| `Filing.IntoPending` | core/tx_pool.go:853-886 | a promoted transaction never meets a pending one with its nonce |
| `TxPool.TxPool.EnqueueTx` | core/tx_pool.go:796-835 | inserts exactly if the queue accepts, replacing the outbid transaction in queue and lookup set |
| `TxPool.TxPool.PromoteTx` | core/tx_pool.go:853-886 | inserts exactly if the pending list accepts; a losing newcomer is forgotten |
| `TxPool.TxPool.RemoveTx` | core/tx_pool.go:1061-1110 | exactly this transaction leaves the pool, those above it in a pending list go back to the queue, and the partition is kept |
| `TxPool.TxPool.Requeue` | core/tx_pool.go:1087-1091 | every demoted transaction arrives in the queue |
| `TxPool.TxPool.PromoteAll` | core/tx_pool.go:1442-1448 | every ready transaction is accepted by the pending list |
| `TxPool.TxPool.PromoteAccount` | core/tx_pool.go:1420-1473 | promotes exactly the ready run of what is not outdated; nothing outdated stays queued, a remote queue is within its limit, and what else is lost lies above a queue that is full |
| `TxPool.TxPool.PromoteExecutables` | core/tx_pool.go:1411-1479 | for every named account that has a queue the promoted transactions are exactly its ready run of what is not outdated, nothing outdated stays queued, and a remote queue is within its limit; accounts that are not named are unchanged; the pending lists gain exactly the promoted transactions and lose none; losses from the queue are outdated or over a remote account's limit |
| `PoolMoves.AccountOutcome` | core/tx_pool.go:1420-1473 | dropping the outdated, taking the ready run and cutting the rest to the limit leaves exactly this, stated on the two lists of the account before and after |
| `TxPool.TxPool.DemoteAccount` | core/tx_pool.go:1640-1686 | leaves exactly the executable part pending, forgets exactly the outdated transactions, queues the rest |
| `TxPool.TxPool.DemoteUnexecutables` | core/tx_pool.go:1634-1690 | afterwards every pending list starts at its account's next nonce with nothing outdated, and exactly the outdated pending transactions have left the pool |
| `TxPool.TxPool.Insert` | core/tx_pool.go:744-791 | a new transaction replaces its nonce's holder in pending or queue exactly if it outbids it; a local sender becomes a local account |
| `TxPool.TxPool.MakeRoom` | core/tx_pool.go:718-743 | refuses exactly an underpriced remote newcomer and one for which all live heap entries together are too small, changing nothing; otherwise evicts exactly what the price heaps gave up, all of it remote |
| `TxPool.TxPool.Evict` | core/tx_pool.go:737-742 | exactly the dropped transactions leave the pool, also if one is dropped twice, and the partition is kept |
| `TxPool.TxPool.Add` | core/tx_pool.go:700-791 | every outcome keeps the partition; the exact condition of every refusal, whether one was replaced, and what leaves the pool and how many slots it takes after each outcome; only remote transactions of remote accounts are evicted; after an accepted remote transaction the pool is within its slots if no heap entry was repeated |
| `TxPool.TxPool.Place` | core/tx_pool.go:744-791 | a newcomer is taken exactly if it outbids the transaction that has its place, which then leaves |
| `PoolMoves.RivalHere` | core/tx_pool.go:744-791 | the list that would take a newcomer holds exactly the known transaction with its place |
| `TxPool.AddOverfills` | core/tx_pool.go:718-743 | if a repeated heap entry is the cheapest and floats alone, a remote newcomer that needs more than its slots and at most twice as many is accepted and leaves the pool over its slots |
| `TxPool.OverfillingRun` | core/tx_pool.go:700-791 | four or more admissible transactions fill a pool, the cheapest is removed and added again, and an admissible newcomer then takes the pool over its slots |
| `TxPool.LargeOverfills` | core/tx_pool.go:718-743 | for any repeated heap entry, a remote newcomer that asks for as many slots as the heaps count is accepted and leaves the pool over its slots |
| `TxPool.TxPool.CapOne` | core/tx_pool.go:1521-1538 | drops exactly the highest nonce of one list, in list and lookup set |
| `TxPool.TxPool.LowerAll` | core/tx_pool.go:1520-1539 | one round lowers exactly the given accounts by one, and the running count is the true sum |
| `TxPool.TxPool.Equalise` | core/tx_pool.go:1515-1541 | lowers the earlier offenders together until they are as short as the newest or the limit is met |
| `TxPool.TxPool.LowerToFloor` | core/tx_pool.go:1544-1568 | lowers all offenders together until the limit is met or only their granted slots are left |
| `TxPool.TxPool.TruncatePending` | core/tx_pool.go:1484-1573 | exact water-filling: below the limit nothing changes; otherwise every remote list is cut to the minimum of its length and one level, losing its highest nonces, local lists are whole, the level is at least the granted slots, and one level up is over the limit |
| `WaterFilling.LevelIsLargest` | core/tx_pool.go:1484-1573 | the level reached is the largest within the limit, or the floor if there is none |
| `WaterFilling.RoundLowers` | core/tx_pool.go:1520-1539 | lowering exactly the lists that reach a level by one gives the next level |
| `TxPool.TxPool.TruncateQueue` | core/tx_pool.go:1576-1625 | the queue ends exactly at its limit or holds only local accounts; accounts lose highest nonces only, and only when every more recently active remote account has lost all |
| `TxPool.TxPool.NextNonces` | core/tx_pool.go:1281-1284 | every pending list is non-empty and the nonce after its highest is recorded |
| `TxPool.TxPool.RunReorg` | core/tx_pool.go:1224-1284 | a whole run keeps the partition and ends within the pending and queue limits; a reset adds its transactions back, then promotes the ready run of every queued account and sets the base fee, and a run without one promotes exactly the ready runs of the named accounts; after a reset every pending list is current and nothing outdated is left in the pool, and otherwise nothing outdated is left in the named queues; new transactions are reinjected ones; a local account loses only what is outdated or has its place taken by a reinjected transaction |
| `PoolMoves.RunsFrom` | core/tx_pool.go:1238-1270 | promoting the named accounts one after the other promotes exactly their ready runs, of all queued accounts after a reset |
| `TxPool.TxPool.Reinject` | core/tx_pool.go:1399-1402 | the transactions are added back one after the other, each as `AddBack` says; this costs a local account only transactions whose place one of them takes |
| `TxPool.TxPool.AddBack` | core/tx_pool.go:1399-1402 | a known or invalid transaction changes nothing; where there is room, a new one is taken exactly if it outbids the holder of its place, and only that one leaves; in a full pool only remote accounts and the holder of its place lose anything |
| `PoolMoves.LighterKeeps` | core/tx_pool.go:1484-1625 | cutting lists of remote accounts loses no transaction of a local one |
| `ResetWalk.Walk` | core/tx_pool.go:1356-1381 | succeeds exactly when the stored branches share a block, then stops at the highest shared one with exactly the transactions of either branch above it |
| `ResetWalk.MeetIsUnique` | core/tx_pool.go:1356-1381 | there is only one such block |
| `ResetWalk.HeadsMeet` | core/tx_pool.go:1356-1381 | two heads over one genesis always meet |
| `ResetWalk.TxDifference` | core/types/transaction.go:474-489 | keeps exactly what is not in the second list, as often and in the same order as in the first |
| `ResetWalk.DifferenceIsUnique` | core/types/transaction.go:474-489 | only one list is that |
| `ResetWalk.Reinjected` | core/tx_pool.go:1318-1383 | which transactions a reset puts back, in which order, and exactly when it skips the walk, gives up, or dereferences a new head that is not stored |
| `ReorgScheduler.MergeReset` | core/tx_pool.go:1175-1183 | merging keeps the first old head and the last new head |
| `ReorgScheduler.MergePromote` | core/tx_pool.go:1185-1193 | merging unites the account sets |
| `ReorgScheduler.ScheduleReorgLoop` | core/tx_pool.go:1145-1213 | for every sequence of events: the requests are exactly the calls of the events, and runs, their progress and what is left over are those of a reference that serves one queue of calls in batches; at most one run is active, none is cancelled before its work, each run works on exactly the requests whose callers hold its done channel, every request is covered by that run, and requests are left over only while a run is current |
| `ReorgScheduler.EachCallOnce` | core/tx_pool.go:1145-1213 | in the reference every call is served by exactly one batch or pending, in order, and calls are pending only while a batch is waited for |
| `ReorgScheduler.PendingIsServed` | core/tx_pool.go:1145-1213 | once the current run has worked and closed and the loop has seen it, all that was pending is in the next run |
| `ReorgScheduler.AllCovered` | core/tx_pool.go:1114-1132 | a caller's request is covered by the run it waits on |
| `Feed.Feed.Find` | event/feed.go:213-220 | the first case with the channel, or none |
| `Feed.Feed.Delete` | event/feed.go:223-225 | shifting in place removes exactly that position |
| `Feed.Feed.Deactivate` | event/feed.go:228-232 | swapping in place moves the case behind the prefix |
| `Feed.Feed.Subscribe` | event/feed.go:72-92 | one more live subscription of the channel, in the inbox |
| `Feed.Feed.SearchInbox` | event/feed.go:103-114 | a channel in the inbox is removed at once; any other waits, and then there is a send case for it besides those of all who already wait |
| `Feed.WaitingIsListed` | event/feed.go:116-124 | the channel of a waiting unsubscriber is always found among the send cases, so neither deletion gets a missing index |
| `Feed.Feed.Remove` | event/feed.go:103-125 | one fewer, from inbox or cases, wherever the case is |
| `Feed.Feed.TrySends` | event/feed.go:155-164 | each success is delivered once and leaves the waiting prefix |
| `Feed.Feed.Select` | event/feed.go:168-180 | one waiting case is served or one waiting unsubscriber is heard, and it is the heard one whose case leaves; the books stay balanced and prefix plus list shrinks |
| `Feed.Feed.Meanwhile` | event/feed.go:72-125 | subscriptions and unsubscriptions during a send change the live and the waiting ones by exactly what was done |
| `Feed.Feed.Send` | event/feed.go:128-190 | for every choice of deliveries and whatever subscribers do meanwhile: the subscribers at the start are partitioned into those served exactly once and those removed before; whoever was removed had asked to leave, so a channel nobody asked to leave is served for each of its subscriptions; the count is the number served; those still subscribed are exactly the served ones that did not leave, and live subscriptions change by exactly what was done meanwhile |
| `ChainIndexer.ChainIndexer.SetValidSections` | core/chain_indexer.go:427-440 | without interruption exactly the heads from the new number up to the old one are dropped, and count and number are set |
| `ChainIndexer.ChainIndexer.StepRollback` | core/chain_indexer.go:427-440 | one statement of it, with the unsigned decrement |
| `ChainIndexer.StepsComplete` | core/chain_indexer.go:427-440 | the statements one after the other do what the uninterrupted call does |
| `ChainIndexer.CompleteCuts` | core/chain_indexer.go:427-440 | the uninterrupted call keeps exactly the other heads |
| `ChainIndexer.Alone` | core/chain_indexer.go:427-440 | an uninterrupted rollback leaves exactly the heads of the valid sections, kept ones unchanged, and the right count |
| `ChainIndexer.RaceSurvives` | core/chain_indexer.go:350-354 | for all interleavings of the statements of the rollback after a failed reset and of one of a new head: the heads are those of the valid sections if and only if zero is assigned last and every section that was skipped is removed later; the count agrees if and only if one of them wrote both last |
| `ChainIndexer.HeadsLeft` | core/chain_indexer.go:350-354 | no head is left if and only if every section whose head the number was lowered past is removed later; the first never is left |
| `ChainIndexer.ApartSurvives` | core/chain_indexer.go:350-354 | if no statement of one falls between a test of the other and its removal, no head is left and only the last assignment counts |
| `ChainIndexer.RaceLoses` | core/chain_indexer.go:350-354 | an interleaving that ends with a valid section and no heads |
| `ChainIndexer.RaceSkips` | core/chain_indexer.go:435-438 | an interleaving that leaves a head although zero is assigned last |
| `ChainIndexer.RaceWraps` | core/chain_indexer.go:435-438 | an interleaving that lowers the number below zero, so that it wraps around |
| `ChainIndexer.NextKeeps` | core/chain_indexer.go:220-380 | every event keeps the section heads on one chain and in step with the number of valid sections, unless by it a reorganisation overtakes a failed reset |
| `ChainIndexer.RunKeeps` | core/chain_indexer.go:220-380 | so does every run in which none is overtaken |
| `ChainIndexer.Committable` | core/chain_indexer.go:310-316 | a complete section whose predecessor still has its head is the next one to be stored, and builds on it |
| `ChainIndexer.FailedReset` | core/chain_indexer.go:350-354 | when a failed reset takes the lock again without overlaps there are no heads, so the index is right exactly if the number of sections is zero |
| `ChainIndexer.ChainIndexer.OnNewHead` | core/chain_indexer.go:220-261 | a reorganisation lowers what is known and cascaded to its point and starts a rollback to that point exactly if more is stored; a head raises what is known to the sections confirmed, and never lowers it |
| `ChainIndexer.ChainIndexer.NewHead` | core/chain_indexer.go:220-261 | the whole handler without interruption: a reorganisation ends with the smaller of the stored sections and those complete up to its point, likewise for the known ones, and exactly the heads above are gone; a head changes only what is known, to the larger of it and the sections confirmed |
| `ChainIndexer.ReorgEnds` | core/chain_indexer.go:226-236 | the same for the events of the interleaved system: a reorganisation followed by its statements ends so, whatever is being processed meanwhile |
| `ChainIndexer.HeadConfirms` | core/chain_indexer.go:246-259 | the same for a plain head: what is known becomes the larger of it and the sections whose last block is confirmed |
| `ChainIndexer.ChainIndexer.OnNewHeadStep` | core/chain_indexer.go:427-440 | the next statement of the locked rollback |
| `ChainIndexer.ChainIndexer.OnUpdate` | core/chain_indexer.go:277-304 | starts on the first section that is not stored, at its first block, with the head of its predecessor, exactly if more is known than stored |
| `ChainIndexer.ChainIndexer.OnRollbackStep` | core/chain_indexer.go:350-354 | the next statement of the rollback without the lock |
| `ChainIndexer.ChainIndexer.OnProcessNext` | core/chain_indexer.go:356-375 | continues exactly with a canonical stored block of the next number whose parent is the last block, until the section is complete, and fails otherwise |
| `ChainIndexer.ChainIndexer.OnCommit` | core/chain_indexer.go:310-327 | stores the last block as head of the section and marks it valid exactly if its predecessor still has the remembered head; otherwise the index is unchanged and what is known falls to what is stored |
| `ChainIndexer.SectionIsIndexed` | core/chain_indexer.go:277-380 | if the canonical blocks of the next section are stored and linked to the head before it, its events without interruption end with exactly this section added, under the hash of its last canonical block |
| `ChainIndexer.FailedResetEnds` | core/chain_indexer.go:350-354 | if the backend cannot reset, its events without interruption end with no section stored or known and no head left |
| `ChainIndexer.ChainIndexer.Run` | core/chain_indexer.go:265-380 | any interleaving of heads, processing, single statements of rollbacks and rewrites of the canonical index ends in the state the events determine; unless a failed reset is overtaken, the heads between rollbacks are exactly those of the valid sections and form one chain |
| `ChainIndexer.StoredHeadIsBlock` | core/chain_indexer.go:442-470 | the head of a valid section is a stored block, the last of its section |
| `ChainIndexer.SectionsOnOneChain` | core/chain_indexer.go:427-470 | walking parents from any stored section head meets every earlier one after its number of blocks and ends at the empty hash, so all stored sections lie on one chain |
| `Gas.GasPool.AddGas` | core/gaspool.go:29-35 | panics exactly on 64-bit overflow |
| `Gas.GasPool.SubGas` | core/gaspool.go:39-45 | deducts exactly if there is enough |
| `StateTransition.PriceSplits` | core/types/transaction.go:681-684 | the gas price is base fee plus effective tip, within the cap; the tip is non-negative exactly if the cap covers the base fee |
| `StateTransition.StateTransition.BuyGas` | core/state_transition.go:200-224 | succeeds exactly if pool and balance allow; then pool and balance pay, otherwise nothing changes |
| `StateTransition.StateTransition.CheckMessage` | core/state_transition.go:226-281 | passes exactly under the nonce, sender and fee rules, and otherwise names a rule that is broken |
| `StateTransition.StateTransition.PreCheck` | core/state_transition.go:226-283 | both together |
| `StateTransition.StateTransition.Prepare` | core/state_transition.go:296-340 | the exact conditions and the state the EVM is given; a call raises its sender's nonce by one, a creation leaves it to the EVM, and no other nonce changes; a message that could pay its gas at the cap never lacks its value |
| `StateTransition.RefundOf` | core/state_transition.go:368-374 | the largest refund within the counter and a fifth of the gas used |
| `StateTransition.StateTransition.RefundGas` | core/state_transition.go:368-387 | returns the unused gas and the refund to sender and pool |
| `StateTransition.StateTransition.Settle` | core/state_transition.go:350-358 | refund and tip; the pool can never overflow |
| `StateTransition.Conserved` | core/state_transition.go:285-365 | buying, executing, refunding and tipping lower the total of balances by exactly the base fee of the gas used, the value and prepaid gas leaving in ETXs, and what vanished in the execution; they overdraw nobody if the execution does not |
| `StateTransition.FailedFrameKeepsEtxs` | core/vm/evm.go:240-246 | calling a frame that loses nothing conserves value exactly if it does not fail or has emitted nothing of value |
| `StateTransition.CreateEtxConserves` | core/vm/evm.go:537-562 | a transaction to another chain fails exactly if there is nothing to take or too little to take it from, and then changes nothing; otherwise its sender alone pays exactly what its one ETX carries |
| `StateTransition.OpEtxConserves` | core/vm/instructions.go:872-912 | the opcode conserves value exactly if it refuses, or decodes the access list and took what the ETX carries; it took that if the gas limit and the amount fit their widths |
| `StateTransition.OpEtxOutcome` | core/vm/instructions.go:872-912 | the opcode never fails its caller; it refuses exactly if there is nothing to take or too little to take it from; it emits one ETX and raises the nonce exactly if it does not refuse and decodes the access list |
| `StateTransition.StateTransition.TransitionDb` | core/state_transition.go:285-365 | succeeds exactly under the stated conditions with exactly the stated result; the pool shrinks by exactly the gas used; value is conserved besides what vanished in the execution; nothing panics |
| `StateProcessor.UpdateEtxSet` | core/types/etx_set.go:24-42 | newly confirmed ETXs enter at the current height, each entry holding the last one delivered under its hash; exactly the expired ones leave and the rest is kept; it panics exactly on an ETX for another chain |
| `StateProcessor.CountEmissions` | core/state_processor.go:323-334 | counts the cross-region and cross-prime ETXs |
| `StateProcessor.ApplyTransaction` | core/state_processor.go:313-374 | the exact result, none if the message fails or a limit is exceeded; gas, value and limits stay accounted for |
| `StateProcessor.LoanCovers` | core/state_processor.go:807-814 | an unspent ETX can always pay, except exactly when its gas limit wraps around and it offers any fee |
| `StateProcessor.WrappedLoanFails` | core/state_processor.go:807-814 | an ETX whose loan is negative and which cannot buy its gas |
| `StateProcessor.LoanIsOutflow` | core/vm/evm.go:537-547 | for an ETX of a transaction to another chain the destination lends exactly what the origin took from the sender; what the opcode takes is the subject of `OpEtxConserves` |
| `StateProcessor.ApplyEtx` | core/state_processor.go:269-285 | an ETX executes only out of the unspent set, leaves it, and the zero address ends with its old balance |
| `StateProcessor.Process` | core/state_processor.go:201-311 | the block succeeds with some totals exactly if each transaction in turn leads to them: it runs for its own sender under the sender's nonce in the state that the ones before left, with its own gas, value and caps, or if external for the zero address with no nonce check; the sender pays for the gas, gets back what is left and the miner the tip; gas used plus gas left is the gas limit; the balances change by exactly the loans for executed ETXs less what is lost of them, the base fee burnt, what leaves in ETXs and what vanished in executions; the loans are those of the executed ETXs, at most they come in, and without external transactions nothing does; no balance is overdrawn if no execution overdraws one; emissions stay within limits fixed by the parent; the external transactions are distinct unspent ETXs and exactly they become spent |
| `StateProcessor.BlockIsRun` | core/types/transaction.go:704-742 | the fold over the messages of a block is the relation that applies its transactions one after the other, in both directions |
| `StateProcessor.AppliedIs` | core/state_transition.go:226-365 | the same for one transaction: it is applied exactly under the rules on nonce, sender, caps, gas, funds and emission limits, with exactly the state and totals that these give |
| `StateProcessor.BlockLoans` | core/state_processor.go:269-285 | over a block the loans add up to those of its external transactions, and only these lose anything |
| `StateProcessor.BlockSolvent` | core/state_processor.go:269-285 | over a block no balance is overdrawn if no execution overdraws one, and what is lost of the loans is not negative |
| `StateProcessor.BlockValue` | core/state_processor.go:255-300 | over a block the books of balances, fees, ETXs and loans change by exactly what vanished in its executions |
| `StateProcessor.NothingVanishes` | core/state_processor.go:255-300 | nothing vanishes in a block all of whose executions conserve value |
| `StateProcessor.ExecutedAtMostOncePerDelivery` | core/state_processor.go:379-394 | along any chain an ETX is executed at most as often as it is delivered |
| `StateProcessor.Apply` | core/state_processor.go:379-394 | applying a block is one step of such a chain; it panics exactly on an inbound ETX for another chain |
| `StateProcessor.ApplyChain` | core/state_processor.go:379-394 | applying the blocks of a chain one after the other makes such a chain, so no ETX is executed more often than it was delivered |

## Left out

- The pool's lists: `TxPool` keeps each list as its contents and applies the operations that `TxList` and `TxSortedMap` are proved to compute, so sharing of list objects between maps is not modelled.
- PoolMoves.ReadyOf: runs the list operation on a fresh list object with the given contents instead of on the stored one.
- Pool heartbeats, journals, metrics, transaction events, the lifetime eviction loop and the nonce cache: heartbeats and pending nonces are parameters, the rest does not affect which transactions are held.
- `validateTx`: its verdict is a parameter of `TxPool.Add`.
- `txPricedList.stales`: no claim that the counter is the number of stale entries; what it triggers is the contract of `Removed`.
- 64-bit wrap-around of counters other than nonces, gas, the ETX loan and the lowered number of sections: slot and queue counters are unbounded integers.
- The pending-header cache, best-header selection, relaying and the bad-hash recovery of the slice.
- ETX collection inside `Append`: the window property is about the function itself in the region context.
- Consensus rules beyond parent link and number: header verification, entropy and coincidence are parameters.
- Block rewards applied by the engine after the transactions, receipts, logs and the state trie.
- ChainIndexer.ChainIndexer.StepRollback: one statement is one step, so torn reads and writes of the number within a statement are not modelled.
- Child indexers of the chain indexer and crashes between its database writes.
- Eviction from the header cache: which of the looked-up headers are cached is a parameter, as no header is looked up twice in a call.
- TxPool.LargeOverfills: the newcomer's size is not bounded by the largest transaction that `validateTx` admits; `AddOverfills` and `OverfillingRun` stay within it.
- Shutdown of the scheduling loop and of the feed, and the merging of queued transaction events.
- The checks of the EVM before it emits an ETX (gas, chain scope, prices): `CreateEtx` and `OpEtx` start after them.
- RPC, peer-to-peer networking, node lifecycle, disk formats, cryptography and the EVM itself.
