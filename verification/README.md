# Verified models of an on-disk B+ tree and of RocksDB's caches

This project models, in Dafny, the data structures this repository measures, and proves what they are relied on for.

* **The B+ tree index** (`bplustree/lib/bplustree.c`, modules `Bpt*`). `BptDisk.Tree` is the tree as the C code keeps
  it: a disk of fixed-size blocks, a free list, a file size, a root offset and five node buffers with `used` flags.
  Keys, children and data are fixed-capacity arrays moved by `memmove`. A ghost image and ghost levels (leaves first)
  state what a well-formed tree is: `BptTree.WellFormed`, and `BptSearch.Valid` for a tree between calls. Every
  split, shift and merge is proved against a function on nodes, these against steps on levels, and those against the
  map the leaves hold. `BptProperties` says the same without the levels, of the blocks alone.
* **The HyperClockCache table** (`cache/clock_cache.cc`, modules `Clock*`). `ClockSlot` is one slot under any number
  of threads, one atomic operation a step, and `ClockOverflow` a run of it; `ClockWord` is its packed 64-bit word;
  `ClockUsage` is the charging protocol in strict mode, again any number of threads; `ClockTable` and `ClockEvict` are
  the sequential table with double-hash probing, displacement counts and clock eviction, and `ClockCache` is the whole
  of it, one call at a time, with charging and the occupancy limit.
* **The LRU cache shard** (`cache/lru_cache.cc`, modules `Lru*`): the ring with its three pools and two moving
  pointers, the life of a handle, the charge counters, the chained hash table with resize, and resumable scans.
* **Companions**: the cache reservation manager and the budget shared by two cache tiers (`Reservation`, `Tiered`),
  splitting a compressed value into allocator-sized chunks (`Chunks`), and MurmurHash3 for 32 bits (`Murmur`,
  `MurmurHash`).

`Sums` and `Arith` hold facts about sums and powers of two. `dafny verify dfyconfig.toml` checks everything.

## Where the code falls short

* `bplus_tree_get_range` moves to the next leaf without resetting its index (line 985 of `bplustree.c`), and can miss
  keys or read past them. `BptRange.RangeExact` states exactly when its answer is right, `BptRangeExample.RangeMisses`
  gives a tree where it is wrong.
* `LRU_Insert` calls `MaintainPoolSize` before it moves `lru_low_pri_` (lines 280-281 of `lru_cache.cc`). If an entry
  is bound for the low pool while the high pool is over its capacity, which a falling `SetCapacity` can bring about,
  the loop first takes the new entry's charge out of the high pool, where it is not. `LruShard.Shard.LRU_Insert` states
  that the list is in order afterwards exactly if this is not the case, and `LruRun.ThreeCalls` runs into the failing
  assertion at line 306 with three calls. Without assertions the subtraction wraps around and the walk goes on past
  the end of the list.
* `CorrectNearOverflow` keeps the reference count exactly when both counters have their top bit set or neither has
  (`ClockSlot.CorrectExact`); `ClockOverflow.CorrectionLosesCount` is a run that leads to one where it does not.
* `ConstApplyToEntriesRange` tests the state for any bit of its mask (line 320 of `clock_cache.cc`), so that invisible
  entries pass even if only visible ones are wanted; `ClockSlot.Admits` follows the code.
* `bplus_tree_get` and `bplus_tree_search` carry a `long` through an `int`. A get gives back what was put exactly for
  values in the range of an int (`BptMap.GetExact`), and a key whose value ends in 32 one bits reads as absent
  (`BptMap.GetAbsent`, `BptMap.StoredReadsAbsent`).

## Model

| member | source | states |
|---|---|---|
| BptMap.Run | bplustree/lib/bplustree.c:958-970 | Every sequence of put and get calls on a valid tree, of any height, returns exactly what the same calls return on a finite map (put of nonzero data inserts or fails on a duplicate, put of zero deletes or fails, get truncates to 32 bits or gives -1), and leaves a valid tree that holds exactly that map. |
| BptMap.Put | bplustree/lib/bplustree.c:963-970 | One call: the return value and the new map are those of the finite-map specification; a failing put leaves every block on disk as it was; the tree stays valid, so all five buffers are free again. |
| BptPut.Get | bplustree/lib/bplustree.c:222-242 | Returns the stored value cut to a 32-bit int, or -1 for an absent key, and changes neither disk nor map. |
| BptMap.GetExact | bplustree/lib/bplustree.c:222-242 | A get gives back what was put if and only if the value is in the range of an int. |
| BptMap.GetAbsent | bplustree/lib/bplustree.c:222-242 | A get answers -1 if and only if the key is absent or the low 32 bits of its value are all ones. |
| BptMap.StoredReadsAbsent | bplustree/lib/bplustree.c:222-242 | Putting 0xffffffff under a key and reading it back returns 0 and then -1, with the value in the map. |
| BptMap.Init | bplustree/lib/bplustree.c:1061-1117 | Opening an empty file succeeds exactly for powers of two from 128 on, and the new tree is valid, empty and of order at least seven. |
| BptMap.AndTest | bplustree/lib/bplustree.c:1071-1074 | For every positive n, n & (n-1) is zero if and only if n is a power of two. |
| BptPut.TreeInsert | bplustree/lib/bplustree.c:600-626 | Inserts into the map if the key is absent, else returns -1 with the disk unchanged; the tree stays valid through any number of splits. |
| BptDeletion.TreeDelete | bplustree/lib/bplustree.c:939-956 | Removes exactly the key from the map if present, else returns -1 with the disk unchanged; the tree stays valid through any number of borrows, merges and a root collapse. |
| BptProperties.Balanced | bplustree/lib/bplustree.c:222-242 | In a valid tree a path of child positions from the root ends in a leaf if and only if it is level - 1 long: all leaves are at the same depth. |
| BptProperties.Reachable | bplustree/lib/bplustree.c:160-220 | Every block the tree counts as its own is reached from the root by some path. |
| BptProperties.ParentLists | bplustree/lib/bplustree.c:279-304 | Every block's self is its own offset; its parent lists it, no other block does, and only the root has none. |
| BptProperties.Partition | bplustree/lib/bplustree.c:160-203 | Tree blocks and the free list together are exactly the multiples of the block size below the file size; they do not overlap, the free list has no repeats, and no block is at INVALID_OFFSET. |
| BptProperties.RowLinks | bplustree/lib/bplustree.c:244-274 | At every depth, prev and next of the nodes met breadth-first run exactly left to right and end in INVALID_OFFSET on both sides. |
| BptProperties.RowIsLevel | bplustree/lib/bplustree.c:176-203 | The breadth-first rows, defined from the blocks alone, are the ghost levels the proofs carry. |
| BptProperties.RowAt | bplustree/lib/bplustree.c:244-274 | There is such a row at every depth below the tree's level. |
| BptProperties.Separators | bplustree/lib/bplustree.c:306-447 | Each separator is greater than every key in any leaf below it to the left and at most every key in any leaf below it to the right. |
| BptProperties.Filled | bplustree/lib/bplustree.c:628-937 | Non-root leaves hold (entries+1)/2 to entries keys, non-root inner nodes order/2 to order children, a root leaf at least one key, a root inner node at least two children; keys ascend strictly. |
| BptProperties.LeafInMap | bplustree/lib/bplustree.c:558-598 | Whatever a leaf holds is in the map, with that value. |
| BptProperties.MapInLeaf | bplustree/lib/bplustree.c:222-242 | Whatever is in the map is held by some leaf, with that value. |
| BptRange.GetRange | bplustree/lib/bplustree.c:972-1007 | Gives the data of the greatest key in the range, or -1 for an empty one, whenever the leaf first reached has a key from min on or is the last leaf; otherwise exactly when the index carried into the next leaf does no harm there. Changes no block. |
| BptRange.RangeExact | bplustree/lib/bplustree.c:980-995 | The if-and-only-if for the position the walk ends at: it is right if and only if the leaf reached holds a key from min on or is the last, or the unreset index meets the stated harmlessness test on the next leaf. |
| BptRangeExample.RangeMisses | bplustree/lib/bplustree.c:985-991 | A well-formed tree of two leaves, as built by nine puts, on which the range [45, 55] is reported empty although key 50 is stored: -1 is not the map's answer. |
| BptRange.RightAnswer | bplustree/lib/bplustree.c:988-995 | The position with the greatest key of the range in the list of all entries gives the map's answer. |
| BptBlock.KeyBinarySearch | bplustree/lib/bplustree.c:46-67 | On ascending keys finds the key's index, or encodes as -(i+1) the number of keys below it. |
| BptBlock.ParentKeyIndex | bplustree/lib/bplustree.c:69-73 | The separator position to the left of the child that covers the key, -1 for the first child. |
| BptSearch.SeekLeaf | bplustree/lib/bplustree.c:226-241 | The descent, at any height, stops at the one leaf whose key interval covers the key, without claiming a buffer. |
| BptDisk.Tree.CacheRefer | bplustree/lib/bplustree.c:75-86 | With fewer than five buffers in use one is found: the assertion after the loop never fails. |
| BptDisk.Tree.NodeNew | bplustree/lib/bplustree.c:96-119 | A fresh buffer with no address, no relatives and no children, not in use before. |
| BptDisk.Tree.NodeFetch | bplustree/lib/bplustree.c:121-131 | A block not yet in a buffer is read into a free one and is the block on disk; no block sits in two buffers. |
| BptDisk.Tree.NodeSeek | bplustree/lib/bplustree.c:133-149 | Reads a block into a free buffer without claiming it. |
| BptDisk.Tree.NodeFlush | bplustree/lib/bplustree.c:151-158 | Writes the block back and frees its buffer; every other block is untouched. |
| BptDisk.Tree.NewNodeAppend | bplustree/lib/bplustree.c:160-174 | The offset given is neither in the tree nor in a buffer nor INVALID_OFFSET, and the file stays partitioned. |
| BptDisk.Tree.Discard | bplustree/lib/bplustree.c:195-203 | A deleted block joins the free list and leaves tree and buffers. |
| BptSplit.NonLeafSplitLeft | bplustree/lib/bplustree.c:306-358 | The node with the new pair inserted, cut in two with the left part in the new block: contents, separator handed up, sibling links, and parents of every moved child. |
| BptSplit.NonLeafSplitRight1 | bplustree/lib/bplustree.c:360-393 | The same for a pair that lands at the split point, right part in the new block. |
| BptSplit.NonLeafSplitRight2 | bplustree/lib/bplustree.c:395-434 | The same for a pair that lands right of the split point. |
| BptInsertOps.NonLeafSimpleInsert | bplustree/lib/bplustree.c:436-447 | The pair goes in at its place and nothing else changes. |
| BptInsertOps.ParentNodeBuild | bplustree/lib/bplustree.c:279-304 | Two halves without a parent get a new root and the tree grows by a level; halves with one are handed to it; either way the tree is well formed again. |
| BptInsertOps.NonLeafInsert | bplustree/lib/bplustree.c:449-482 | Inserting a split child's pair keeps the whole tree well formed up to the root, at any height; the key is never in the node already (the assertion at line 454), and at most five buffers are in use. |
| BptLeafOps.LeafSplitLeft | bplustree/lib/bplustree.c:484-516 | The leaf with the new entry, cut in two with the left part in the new block: entries, links and the separator. |
| BptLeafOps.LeafSplitRight | bplustree/lib/bplustree.c:518-546 | The same with the right part in the new block. |
| BptPut.LeafSimpleInsert | bplustree/lib/bplustree.c:548-556 | The entry goes in at its place in the leaf; the map gains exactly it. |
| BptPut.LeafInsertKey | bplustree/lib/bplustree.c:558-598 | At the leaf found by the search: -1 and nothing changed for a duplicate, else the map gains exactly the entry and the tree is well formed. |
| BptRemoveOps.SiblingSelect | bplustree/lib/bplustree.c:628-641 | The sibling chosen is a child of the same parent next to the node, and, where there are two, one with at least as many children as the other. |
| BptRemoveOps.BorrowLeft | bplustree/lib/bplustree.c:643-660 | On disk afterwards: the left sibling has lost its last child, the node holds it in front with the old separator before its keys and without the removed entry, the parent has the sibling's last key as separator, the child points to its new parent, and no other block changed; all buffers are free. |
| BptRemoveOps.JoinLeft | bplustree/lib/bplustree.c:662-685 | The left sibling holds its own children, then the separator and the node's remaining ones in order; every moved child points to it, links close over the dead node, and its block is free. |
| BptRemoveOps.BorrowRight | bplustree/lib/bplustree.c:687-705 | The same as BorrowLeft with the right sibling's first child, which goes to the node's end. |
| BptRemoveOps.JoinRight | bplustree/lib/bplustree.c:707-726 | The node holds its own remaining children, then the separator and the right sibling's; children, links and the freed block as for JoinLeft. |
| BptRemove.NonLeafRemove | bplustree/lib/bplustree.c:736-800 | Removing a child entry of a merged pair keeps the whole tree well formed up to the root, through borrow, merge and root collapse, at any height and within five buffers. |
| BptLeafRemoveOps.LeafBorrowLeft | bplustree/lib/bplustree.c:802-817 | On disk afterwards: the left leaf's last entry stands in front of the leaf's remaining ones, the parent's separator is its key, and no other block changed; all buffers are free. |
| BptLeafRemoveOps.LeafBorrowRight | bplustree/lib/bplustree.c:830-846 | The right leaf's first entry stands at the end of the leaf's remaining ones, and the parent's separator is the right leaf's new first key. |
| BptLeafRemoveOps.LeafJoinLeft | bplustree/lib/bplustree.c:819-828 | The left leaf holds both leaves' entries without the removed one, links close over the dead leaf, and its block is free. |
| BptLeafRemoveOps.LeafJoinRight | bplustree/lib/bplustree.c:848-854 | The same with the right leaf merged in. |
| BptDeletion.LeafRemoveKey | bplustree/lib/bplustree.c:863-937 | At the leaf found by the search: -1 and nothing changed for an absent key, else the map loses exactly the key and the tree is well formed, possibly empty. |
| ClockSlot.CountedExactly | rocksdb_exp/rocksdb-8.6.7/cache/clock_cache.cc:87-141 | In every run, over any number of threads and any interleaving of atomic steps, whose counters stay within thirty bits and agree in their top bits when corrected: acquire minus release equals the references all threads hold while the slot is shareable, nobody holds one otherwise, and exactly one thread owns a slot under construction. |
| ClockSlot.ReferencedIsStable | rocksdb_exp/rocksdb-8.6.7/cache/clock_cache.cc:823-934 | While a thread keeps a reference, the slot's key and value never change and nobody takes the slot. |
| ClockSlot.Reached | rocksdb_exp/rocksdb-8.6.7/cache/clock_cache.cc:216-304 | The invariant behind both holds in every state of every run from an empty slot. |
| ClockSlot.StepKeeps | rocksdb_exp/rocksdb-8.6.7/cache/clock_cache.cc:948-1031 | Every atomic step of insert, lookup, ref, release, erase, clock update, scan and apply keeps the invariant; a near-overflow correction does if the counters' top bits agree. |
| ClockSlot.TakenFair | rocksdb_exp/rocksdb-8.6.7/cache/clock_cache.cc:896-914 | An exchange that takes a slot from a word with equal counters takes it from nobody: the books balance after it. |
| ClockSlot.AssertionsHold | rocksdb_exp/rocksdb-8.6.7/cache/clock_cache.cc:861-893 | The assertions in Release, Ref, Erase, Unref and the insert path hold in every reachable state. |
| ClockSlot.CorrectionExact | rocksdb_exp/rocksdb-8.6.7/cache/clock_cache.cc:197-214 | Clearing the counters' top bits keeps the reference count if and only if both have theirs set or neither has. |
| ClockSlot.CorrectExact | rocksdb_exp/rocksdb-8.6.7/cache/clock_cache.cc:207-213 | For an entry in a shareable state the near-overflow correction keeps the invariant if and only if the top bits agree. |
| ClockOverflow.CorrectionLosesCount | rocksdb_exp/rocksdb-8.6.7/cache/clock_cache.cc:197-214 | A run, of one kept reference and 2^29 - 1 lookups and releases, that leads to a correction with disagreeing top bits: before it one reference is counted and held, after it the count is negative. |
| ClockWord.Fields | rocksdb_exp/rocksdb-8.6.7/cache/clock_cache.h:303-330 | Reading the two counters, the hit bit and the state out of the packed 64-bit word gives back what was packed. |
| ClockWord.PackInjective | rocksdb_exp/rocksdb-8.6.7/cache/clock_cache.h:303-330 | Different field values never share a word, so a successful exchange compared all fields. |
| ClockWord.AddsAreLocal | rocksdb_exp/rocksdb-8.6.7/cache/clock_cache.cc:87-95 | Adding to or subtracting from one counter in the packed word changes that counter alone, as long as it stays in range. |
| ClockWord.RefcountMasked | rocksdb_exp/rocksdb-8.6.7/cache/clock_cache.cc:41-45 | The masked subtraction on the word gives the reference count. |
| ClockWord.CarryMisreads | rocksdb_exp/rocksdb-8.6.7/cache/clock_cache.h:312-323 | Past its range the acquire counter carries into the release counter: the bound is needed. |
| ClockUsage.UsageAccounted | rocksdb_exp/rocksdb-8.6.7/cache/clock_cache.cc:409-464 | In strict mode, in every interleaving: usage equals metadata plus the charges of table and standalone entries plus each thread's amount in flight; occupancy and standalone usage likewise. |
| ClockUsage.UsageBounded | rocksdb_exp/rocksdb-8.6.7/cache/clock_cache.cc:409-464 | If the capacity covers the table's own charge, usage never exceeds capacity in any interleaving and no amount in flight is negative. |
| ClockUsage.BoundExact | rocksdb_exp/rocksdb-8.6.7/cache/clock_cache.cc:409-464 | Usage stays within capacity throughout a run if and only if the capacity covers the table's own charge. |
| ClockUsage.Quiescent | rocksdb_exp/rocksdb-8.6.7/cache/clock_cache.cc:546-645 | With no operation under way the three counters are exactly the entries'. |
| ClockUsage.NoUnderflow | rocksdb_exp/rocksdb-8.6.7/cache/clock_cache.cc:1080-1089 | No subtraction from usage or occupancy, in refund, revert, rollback or reclaim, goes below zero. |
| ClockUsage.EvictedIfNeeded | rocksdb_exp/rocksdb-8.6.7/cache/clock_cache.cc:440-463 | An insert that had to evict and goes on has evicted something. |
| ClockUsage.StepKeeps | rocksdb_exp/rocksdb-8.6.7/cache/clock_cache.cc:374-406 | Every step keeps the accounting, including over-eviction refunds, failed exchanges and the standalone fallback. |
| Arith.OddCancels | rocksdb_exp/rocksdb-8.6.7/cache/clock_cache.cc:1041-1046 | An odd factor can be cancelled modulo a power of two. |
| ClockProbe.ProbeInjective | rocksdb_exp/rocksdb-8.6.7/cache/clock_cache.cc:1035-1066 | The first N probes of any key in a table of N slots are all different. |
| ClockProbe.ProbeReaches | rocksdb_exp/rocksdb-8.6.7/cache/clock_cache.cc:1035-1066 | They reach every slot. |
| ClockProbe.ProbeCycle | rocksdb_exp/rocksdb-8.6.7/cache/clock_cache.cc:1058-1064 | The probe after them is the first again. |
| ClockTable.Table.Lookup | rocksdb_exp/rocksdb-8.6.7/cache/clock_cache.cc:795-859 | Finds a visible entry of the key if and only if the whole table has one, although it stops at the first zero displacement count; takes one reference and, with a callback, sets the hit bit; of the slots probed before, the empty ones keep a raised acquire counter and all others are untouched. |
| ClockTable.Table.DoInsert | rocksdb_exp/rocksdb-8.6.7/cache/clock_cache.cc:748-793 | Fills an empty slot with the entry, or finds a visible entry of the key and boosts it, or finds every slot occupied; on failure all displacement counts are restored. |
| ClockCache.Cache.Insert | rocksdb_exp/rocksdb-8.6.7/cache/clock_cache.cc:546-645 | In strict mode with the occupancy limit and eviction. The clock runs if and only if the charge is admissible and there is an excess or no slot to spare, and stops as soon as enough is freed. The memory limit is reported if and only if the charge exceeds the capacity, the run freed too little, or the limit was reached and nothing was freed; then the run was a full one, and every unreferenced entry left had a countdown of at least three and stands at zero. Otherwise the entry is in a free slot, or a visible entry of the key exists and is boosted, never for want of a slot. Usage is metadata, table and standalone charges throughout, within capacity, and occupancy within its limit. |
| ClockCache.Cache.ChargeUsage | rocksdb_exp/rocksdb-8.6.7/cache/clock_cache.cc:409-464 | The clock runs exactly when needed and no further than needed; success exactly when charge, freed amount and freed slots allow it, failure of an admissible charge only after a full run; usage is rolled back by what was not used, and one more entry fits under the occupancy limit. |
| ClockCache.Run | rocksdb_exp/rocksdb-8.6.7/cache/clock_cache.cc:546-645 | In every run of inserts, lookups, releases and erases the accounting holds and the table has a free slot. |
| ClockTable.Table.Erase | rocksdb_exp/rocksdb-8.6.7/cache/clock_cache.cc:948-1011 | No visible entry of the key is left in the whole table, duplicates included: every occupied slot is as an exhaustive erase would leave it (unreferenced entries of the key gone, referenced ones invisible, others untouched), empty ones at most have a raised acquire counter; the charge reclaimed is that of what is gone. |
| ClockTable.Table.Release | rocksdb_exp/rocksdb-8.6.7/cache/clock_cache.cc:861-934 | Drops one reference; the entry goes if and only if it was the last and the entry is invisible or erasure was asked for. |
| ClockTable.Table.Remove | rocksdb_exp/rocksdb-8.6.7/cache/clock_cache.cc:900-927 | Freeing an entry takes its path out of the displacement counts exactly. |
| ClockTable.Table.Rollback | rocksdb_exp/rocksdb-8.6.7/cache/clock_cache.cc:1070-1078 | Walks from the first probe to the handle and no further, lowering exactly the slots before it. |
| ClockPaths.NoneLeft | rocksdb_exp/rocksdb-8.6.7/cache/clock_cache.cc:840-856 | If the slots probed so far have no match and the count at the last is zero, or all slots were probed, no slot of the table matches. |
| ClockPaths.Fill | rocksdb_exp/rocksdb-8.6.7/cache/clock_cache.cc:748-793 | Storing an entry after raising the counts along its path keeps each count equal to the number of stored entries probed past that slot. |
| ClockPaths.Vacate | rocksdb_exp/rocksdb-8.6.7/cache/clock_cache.cc:1070-1078 | Lowering them on removal keeps it. |
| ClockEvict.Evict | rocksdb_exp/rocksdb-8.6.7/cache/clock_cache.cc:1091-1133 | Stops within ceil(3N/4)+1 batches and with the first batch that brings the freed charge to the request; has visited each entry as often as the clock passed its slot, and reports exactly the charge and number of what is gone; less than requested only after the last batch. |
| ClockEvict.EvictLeaves | rocksdb_exp/rocksdb-8.6.7/cache/clock_cache.cc:1091-1133 | If it comes back with less, every unreferenced entry left started visible with countdown at least three and now stands at zero; no unreferenced invisible one remains. |
| ClockEvict.ThreeTurns | rocksdb_exp/rocksdb-8.6.7/cache/clock_cache.cc:1105-1110 | In that many batches every slot is visited at least three times, whatever the pointer's start. |
| ClockEvict.ClockUpdate | rocksdb_exp/rocksdb-8.6.7/cache/clock_cache.cc:97-141 | A visit counts an exposed entry down or frees it, with its path and occupancy; any other entry is untouched. |
| LruRun.Run | rocksdb_exp/rocksdb-8.6.7/cache/lru_cache.cc:322-615 | After any calls in any order, capacities rising and falling, by clients that release only what they hold, leaving out exactly the calls that would put an entry into the low pool with the high one over capacity: list, table and counters agree, a handle is on the list if and only if it is in the table and unreferenced, the list is empty if usage exceeds capacity, and what was freed stays freed. |
| LruRun.RunWithin | rocksdb_exp/rocksdb-8.6.7/cache/lru_cache.cc:299-320 | If moreover no capacity falls below what its pool holds, nothing needs to be excluded, and the pools stay within their capacities. |
| LruRun.ThreeCalls | rocksdb_exp/rocksdb-8.6.7/cache/lru_cache.cc:299-309 | Three calls from an empty shard, the second lowering the capacity, that leave the high pool over capacity and the next entry to be taken out of it heavier than what the pool is said to hold: the assertion fails. |
| LruShard.Shard.InsertItem | rocksdb_exp/rocksdb-8.6.7/cache/lru_cache.cc:372-428 | No entry results if and only if pinned usage plus charge exceeds capacity and either the limit is strict or no handle is wanted. The list is in order afterwards if and only if the entry is not put into the low pool with the high one over capacity, as left by the evictions and the replaced entry, both computed from the state on entry; then the list is what the evictions (the shortest prefix that makes room) and the replacement leave of it, with the new entry as the newest of its pool, referenced handles stay as they were but for a replaced one leaving the table, and a strict shard is within capacity. |
| LruShard.Shard.EvictFromLRU | rocksdb_exp/rocksdb-8.6.7/cache/lru_cache.cc:322-335 | Frees a prefix of the list, oldest first, never one more than needed; pinned usage is unchanged, and the charge fits afterwards if and only if it fits beside the pinned usage. |
| LruShard.Shard.Release | rocksdb_exp/rocksdb-8.6.7/cache/lru_cache.cc:472-518 | Frees the handle if and only if the last reference goes and it is erased, asked to go, or the shard is over capacity; else the last reference puts it on the list, which stays in order if and only if the entry does not enter the low pool with the high one over capacity. Over capacity the list is empty (the assertion at line 487). |
| LruShard.Shard.Lookup | rocksdb_exp/rocksdb-8.6.7/cache/lru_cache.cc:430-448 | Returns the table's handle with one more reference and off the list, the rest of the list in order; or -1 and nothing changed. |
| LruShard.Shard.Ref | rocksdb_exp/rocksdb-8.6.7/cache/lru_cache.cc:450-456 | One more reference to a handle already held; all else unchanged. |
| LruShard.Shard.Erase | rocksdb_exp/rocksdb-8.6.7/cache/lru_cache.cc:591-615 | The key leaves the table; its handle is freed if unreferenced and lives on outside the table otherwise. |
| LruShard.Shard.CreateStandalone | rocksdb_exp/rocksdb-8.6.7/cache/lru_cache.cc:559-589 | Fails, or goes uncharged, if and only if the limit is strict and pinned usage plus charge exceeds capacity; the handle is in no table, and the shortest prefix of the list that makes room is evicted. |
| LruShard.Shard.LRU_Insert | rocksdb_exp/rocksdb-8.6.7/cache/lru_cache.cc:257-297 | All assertions hold and some placing of the pools accounts for links, pointers, flags and counters afterwards, if and only if the entry is not bound for the low pool with the high pool over capacity on entry. Then the entry is the newest of the pool its priority, hit flag and the ratios choose. |
| LruShard.Shard.LRU_Remove | rocksdb_exp/rocksdb-8.6.7/cache/lru_cache.cc:233-255 | The entry leaves the ring; pool pointers move back if they stood on it and the usages lose its charge. |
| LruOverflow.MaintainFits | rocksdb_exp/rocksdb-8.6.7/cache/lru_cache.cc:299-320 | On pools that agree both loops end without a failed assertion or reaching the list head, with both pools within capacity, only boundaries and flags moved; with the low pointer still behind a new entry, if the high pool is within capacity. |
| LruShard.Shard.SetCapacity | rocksdb_exp/rocksdb-8.6.7/cache/lru_cache.cc:354-365 | Evicts the shortest prefix of the list that fits usage into the new capacity; the pools fit afterwards if their new capacities are not below what they hold. |
| LruShard.Shard.SetHighPriorityPoolRatio | rocksdb_exp/rocksdb-8.6.7/cache/lru_cache.cc:458-463 | Rebalances the pools for the new high-pool capacity without reordering the list. |
| LruShard.Shard.SetLowPriorityPoolRatio | rocksdb_exp/rocksdb-8.6.7/cache/lru_cache.cc:465-470 | The same for the low pool. |
| LruShard.Shard.EraseUnRefEntries | rocksdb_exp/rocksdb-8.6.7/cache/lru_cache.cc:146-166 | Every unreferenced handle is freed and no referenced one. |
| LruOverflow.LateOverflow | rocksdb_exp/rocksdb-8.6.7/cache/lru_cache.cc:270-281 | If the high pool is over capacity when an entry has just gone into the low pool, then, should the loops end at all, no placing of the pools accounts for what LRU_Insert leaves. |
| LruPools.HighToLow | rocksdb_exp/rocksdb-8.6.7/cache/lru_cache.cc:300-309 | Moving the boundary one entry keeps ring, flags, pointers and usages in agreement, and there is such an entry whenever the high pool is over capacity. |
| LruPools.LowToBottom | rocksdb_exp/rocksdb-8.6.7/cache/lru_cache.cc:311-319 | The same for the low pool, also before the low pointer has caught up with a new entry. |
| LruPools.PoolsRemove | rocksdb_exp/rocksdb-8.6.7/cache/lru_cache.cc:233-255 | Taking any element out keeps the three pools consistent. |
| LruPools.PoolsInsert | rocksdb_exp/rocksdb-8.6.7/cache/lru_cache.cc:257-297 | Putting an element in at a pool boundary keeps them consistent. |
| LruRing.Unlink | rocksdb_exp/rocksdb-8.6.7/cache/lru_cache.cc:242-244 | The four pointer updates of a removal leave exactly the ring without the element. |
| LruRing.Link | rocksdb_exp/rocksdb-8.6.7/cache/lru_cache.cc:262-265 | The pointer updates of an insertion leave exactly the ring with the element at that place. |
| LruTable.HandleTable.Lookup | rocksdb_exp/rocksdb-8.6.7/cache/lru_cache.cc:45-47 | The hash table answers as a finite map on (key, hash). |
| LruTable.HandleTable.Insert | rocksdb_exp/rocksdb-8.6.7/cache/lru_cache.cc:49-63 | The map gains or replaces the entry, the replaced one is returned, the element count is the map's size, and the length bits stay or grow by one, never on a replacement. |
| LruTable.HandleTable.Remove | rocksdb_exp/rocksdb-8.6.7/cache/lru_cache.cc:65-73 | The map loses the entry, which is returned. |
| LruTable.HandleTable.FindPointer | rocksdb_exp/rocksdb-8.6.7/cache/lru_cache.cc:75-81 | The chain position of the entry, or the chain's end if and only if the map lacks it. |
| LruTable.HandleTable.Resize | rocksdb_exp/rocksdb-8.6.7/cache/lru_cache.cc:83-115 | Doubles the chains unless the bits are used up, and keeps the map. |
| LruTable.HandleTable.ApplyToSomeEntries | rocksdb_exp/rocksdb-8.6.7/cache/lru_cache.cc:168-202 | Visits exactly the entries whose bucket lies in the call's interval, each once, and hands on the next state. |
| LruWalk.Walk | rocksdb_exp/rocksdb-8.6.7/cache/lru_cache.cc:168-202 | A whole scan with anything inserted into and removed from the table between its calls, however the table grows: every name present at all calls is visited, no name is visited twice, and each visit shows what the table held at that call. |
| LruScan.VisitsInterval | rocksdb_exp/rocksdb-8.6.7/cache/lru_cache.cc:177-199 | A call visits a hash if and only if its position lies between the states before and after, whatever the table's size. |
| Reservation.Manager.UpdateCacheReservation | rocksdb_exp/rocksdb-8.6.7/cache/cache_reservation_manager.cc:57-85 | Succeeds if and only if the dummy entries held plus those the cache accepts cover the amount; then, unless a delayed decrease waits, the reservation is the least multiple of 256 KiB covering it; on failure everything accepted is kept. Handles are added and removed at the end only, and reserved size is always 256 KiB per handle. |
| Reservation.Manager.IncreaseCacheReservation | rocksdb_exp/rocksdb-8.6.7/cache/cache_reservation_manager.cc:111-127 | Adds as few dummy entries as cover the amount, or all the cache accepts. |
| Reservation.Manager.DecreaseCacheReservation | rocksdb_exp/rocksdb-8.6.7/cache/cache_reservation_manager.cc:129-147 | Removes as many as possible while still covering the amount. |
| Reservation.Manager.UpdateBy | rocksdb_exp/rocksdb-8.6.7/cache/cache_reservation_manager.h:270-284 | Memory used moves by the difference, whether or not the cache had room, and the reservation follows. |
| Tiered.Adapter.Insert | rocksdb_exp/rocksdb-8.6.7/cache/secondary_cache_adapter.cc:224-239 | A placeholder's share moves from the primary reservation to the secondary deflation and the two still add up to the secondary capacity. States exactly when each of the code's assertions holds: the deflation if the secondary cache takes the dummy entries, the subtraction if all shares together fit the secondary capacity, the lowered reservation always when the reservation was exact before. |
| Tiered.Adapter.Release | rocksdb_exp/rocksdb-8.6.7/cache/secondary_cache_adapter.cc:267-281 | The share moves back, exactly, whatever other placeholders are live; states exactly when inflation and reservation succeed. |
| Tiered.Adapter.constructor | rocksdb_exp/rocksdb-8.6.7/cache/secondary_cache_adapter.cc:86-102 | At first the whole secondary capacity is reserved in the primary cache. |
| Tiered.FitsWithin | rocksdb_exp/rocksdb-8.6.7/cache/secondary_cache_adapter.cc:230-235 | Placeholders whose charges together fit the primary capacity never make the subtraction underflow, although each share is rounded down on its own. |
| Tiered.SharesFit | rocksdb_exp/rocksdb-8.6.7/cache/secondary_cache_adapter.cc:230-231 | The sum of the rounded shares is at most the secondary capacity. |
| Tiered.OverchargedTakesTooMuch | rocksdb_exp/rocksdb-8.6.7/cache/secondary_cache_adapter.cc:230-235 | Charges beyond the capacity can ask for more than there is: the condition is needed. |
| Tiered.AllReleased | rocksdb_exp/rocksdb-8.6.7/cache/secondary_cache_adapter.cc:267-281 | With every placeholder released the budget is back as it began. |
| Chunks.RoundTrip | rocksdb_exp/rocksdb-8.6.7/cache/compressed_secondary_cache.cc:223-291 | Merging what splitting made gives back the value, for every value and either compression setting. |
| Chunks.SplitValueIntoChunks | rocksdb_exp/rocksdb-8.6.7/cache/compressed_secondary_cache.cc:223-267 | Chunks are nonempty, concatenate to the value, all but the last fill an allocator bin, and the charge is the value's size plus a header per chunk; without compression there is one chunk. |
| Chunks.MergeChunksIntoValue | rocksdb_exp/rocksdb-8.6.7/cache/compressed_secondary_cache.cc:269-291 | The buffer is exactly large enough and holds the concatenation; the charge is its length. |
| MurmurHash.OneBlockDecides | filter_exps/MurmurHash3.cpp:96-150 | Two keys of equal length that differ in one aligned four-byte block only have different hashes under the same seed. |
| MurmurHash.TailDecides | filter_exps/MurmurHash3.cpp:125-147 | Two keys of equal length that differ in the tail bytes only have different hashes. |
| MurmurHash.MurmurHash3_x86_32 | filter_exps/MurmurHash3.cpp:96-150 | The loop over blocks, the tail switch and the final mix compute the hash the two lemmas are about. |
| Murmur.FmixInjective | filter_exps/MurmurHash3.cpp:70-79 | The final mix is injective on 32-bit words. |
| Murmur.StepInjective | filter_exps/MurmurHash3.cpp:112-123 | Mixing in a block is injective in the hash for a fixed block and in the block for a fixed hash. |
| Murmur.FoldInjective | filter_exps/MurmurHash3.cpp:70-79 | x ^ (x >> k) is injective for every positive k. |
| Murmur.TimesInjective | filter_exps/MurmurHash3.cpp:74-77 | Multiplying by any odd number modulo 2^32 is injective on words. |
| Murmur.RotlShifts | filter_exps/MurmurHash3.cpp:36-39 | The rotation is the two shifts put together that rotl32 computes. |

## Left out

- File system calls, the boot file and reloading or closing an index: the disk returns what was last written. The boot file does not store `level`, and passes offsets through an `int`.
- `bplus_tree_dump` and the debug drawing: printing only.
- The layout macros: a block's keys, children and data are separate bounded sequences; where `get_range` reads one entry past the keys the model reads the start of the data, as the layout has it, and past the data anything.
- BptMap.Put and BptPut.Get require the key to be an `int` from INT_MIN up, which the C type guarantees; the 32-bit upper bound of keys is not needed.
- BptDisk.Tree.NodeNew fills the arrays of a fresh buffer with zeros where malloc leaves anything; no contract depends on what lies past the children count, and the range lemmas hold for any contents.
- Block and buffer contents are values in class fields that the methods reassign; aliasing of a buffer by two C pointers appears only as the rule that no block sits in two buffers.
- Memory orderings: atomics are sequentially consistent steps. Use of a freed standalone handle is not modelled.
- ClockSlot.CountedExactly and its companions are about runs whose counters stay within their thirty bits and agree in their top bits at each near-overflow correction; CorrectExact shows that the latter is exactly what a correction needs.
- ClockUsage.UsageBounded is about a capacity that is at least the table's metadata charge, which the shard's constructor asserts for every capacity of at least one handle (BoundExact: otherwise usage exceeds capacity from the start); ClockCache.Cache takes the same for granted. ClockUsage covers the strict limit with a fixed capacity; the non-strict charging path and changes of capacity are left out.
- The occupancy limit, the table's size bits and the pool capacities are numbers given to the model; how they are computed from load factors and ratios as doubles is left out.
- The sequential table (`ClockTable`, `ClockCache`) keeps its slots in a sequence and raises the occupancy after the eviction rather than before, with the same state afterwards; concurrent displacement counts are left out.
- ClockTable.Table.Release and ClockTable.Table.DoInsert leave out the near-overflow correction after a release and after a matching insert; `ClockSlot` and `ClockOverflow` are about it.
- Eviction callbacks, deleters, compression libraries, statistics, secondary-cache lookup and promotion: no effect on the modelled state.
- LruShard.Shard.LRU_Insert: what a shard does after a failed assertion, or with a list that no placing of the pools accounts for, is not modelled.
- The shard's table is a map from keys to handle numbers; `LruTable` proves that the hash table is such a map. Handles are freed inside the call rather than after the mutex is released, and a replaced entry goes before the new one comes, with the same state afterwards.
- LruWalk.Walk is about one shard; `ApplyToAllEntries`, which rotates over shards and passes at most one entry per lock because it takes a minimum with one, is left out.
- Tiered.Adapter: shares are exact quotients rounded down, where the code multiplies by a double.
- Reservation.Manager.UpdateCacheReservation sees the cache only through how many dummy entries it accepts in the call.
- MurmurHash.MurmurHash3_x86_32: bytes and 32-bit words are naturals, with xor and shifts on their binary digits; the joining of disjoint bit ranges is written as a sum. The 128-bit variants are left out.
- Chunks: bytes are integers and chunk lists are sequences; allocation is left out.
- Benchmarks, plotting, workload generation, trace parsing and build scripts: input, output and text processing.
