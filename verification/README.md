# Verified models of the FPGA memory system

Dafny models of the parts of this repository whose correctness is not visible from one function at a
time, with machine-checked proofs of what they promise. `dafny verify dfyconfig.toml` checks all of it.

**Buddy allocator** (`alloc/buddy/buddy.cpp`). `Shifts` is the algebra of `<<`, `>>` and bit slices on
words of any width. `BuddyGeometry` has the order, tag, index and metadata-address arithmetic, for every
`ORDER_MAX`, `BUDDY_MIN_SHIFT` and associativity. `BuddyTree` defines the 8-ary occupancy tree as a
function of the set of live blocks, without reference to the code. `BuddyCache` is the set-associative
BRAM cache over the DRAM metadata bytes and their combined view. `BuddyAllocator.Buddy` is the class
with `alloc`, `free` and their loops. Its invariant: at most one valid line per node, no empty valid line
below level 0, and the combined view shows exactly the live blocks. `BuddyRuns` proves what clients rely
on over whole runs. `ByteMasks` connects the 8-bit masks of the source with the bit runs of the model.
`Log2Search` is the binary-search logarithm the constructor uses.

**Hashed page table** (`mm/paging_hashed/hls_mapping`). `HashWords` has buckets and the chain-pointer
encoding, `PageTable` the effect of each stage on a request and of a whole request on the two tables.
`PageTableMap` proves that the two tables are a map from keys to values of which BRAM caches a part,
with acyclic, disjoint chains. `Reservation.Ring` is the reservation table and the FIFO it refines.
`PageBram` says what each request leaves in BRAM and in its chain and what its reply says, in every run.
`PagePermissions` follows write permission over whole runs, `PageFull` a chain that runs full.
`PagePipeline.Pipeline` is the pipeline as it runs: stages with their registers over FIFOs, in any
interleaving with memory and allocator answers. Its invariant ties every FIFO to one-at-a-time execution
in which the requests that need a bucket take the allocator's answers in turn, and its history to the
requests that arrived on each channel.
`PageProgress` proves that it always drains.

**RDM pipeline** (`app/rdma/rdm_mapping/top.cpp`). `RdmStages` has each stage's step and the whole output
it produces from the input still to come, `RdmReplies` what the stages in a row answer to a list of
packets, `RdmPipeline.Rdm` the stages under any interleaving, `RdmResults` the theorems on replies and
write data, `RdmAnswers` which answer of the allocator and the mapping IP each request gets and where it
goes, and `RdmProgress` that every run can be finished.

**XDMA scatter-gather** (`host/pcie_xdma/xdma/libxdma.c`). `XdmaSplit` cuts scatter lists, `XdmaChain` says
what a descriptor chain is and what an engine reads out of it, `XdmaControl` what the masks on the packed
control word do to its fields, `XdmaSubmit` has the methods that build
chains and the submit loop, `XdmaResults` the theorems on a whole submit.

**Merge sort** (`app/mergesort/hls/mergesort.cpp`). `MergeSort`, in place on an array of any power-of-two size.

Some properties one would expect depend on a condition, and the condition is proved exact:

- `free` succeeds exactly when some cell of the named run is in use, so it answers rightly, and leaves the
  tree that of the other live blocks, if and only if the run is a live block or no cell of it is in use
  (`Buddy.Free`). `ReservedHalfMarked` is a request it answers wrongly. After any successful free the tree
  is that of some set of disjoint blocks, namely of what the live ones have left outside the run, if and
  only if no live block of a deeper level lies under the run. `WrongOrder` says what happens when a block
  is freed with another order than its own.
- The block the buddy constructor reserves covers the metadata area if and only if `BUDDY_MIN_SHIFT` is at
  most 3 `LEVEL_MAX` - 6 or above 3 `LEVEL_MAX` - 3, because `LENGTH_TO_ORDER` truncates
  (`ReservedCoversMeta`). Both configured sizes meet it; `SmallSpaceNotCovered` is one that does not.
- A GET refill keeps the permission bit of the pair it overwrites. A write request is granted if and only
  if the latest SET of its key was writable or BRAM holds the key under such a bit (`WriteGetGranted`);
  `ReadOnlyKeyWritten` is a run in which a read-only key is granted. When no GET copied the key since its
  latest SET, the grant is that SET's (`WriteGetWithoutCopy`).
- Reads of a key return its latest SET in every run if and only if the key is not 0 (`RightButForZero`),
  as long as the allocator refuses no bucket; `FailedSetRead` is a run in which it does.
- An RDM WRITE whose mapping fails still streams its data. Memory gets the right data if and only if no
  WRITE succeeds after a refused one (`WritesPairedExactly`; `RefusedWordWritten` is two WRITEs for which
  it does not). The byte count handed to the datamover is
  right exactly for lengths up to 2^23 - 64 (`ByteCount`).
- The array of XDMA software descriptors holds all pieces if and only if the entries whose 32-bit sum wraps
  miss no more than the others have to spare (`CountedExactly`; in `SeventeenForOne` one entry takes 17
  pieces and counts as one). A finished submit returns the sum of the entry lengths if and only if no 2048
  consecutive cuts, counted from the first, have 2^32 bytes (`ReturnedTotal`; in `TotalLost` it returns 0).

Two comments in mm/paging_hashed/hls_mapping/data_path.cpp disagree with the code, and the code is followed.
The one at lines 431-437 suspects a bug when the allocated address lies below the table base:
`ChainPointerRoundTrip` shows that encoding and decoding are inverse there too, modulo 2^32. The one at
lines 382-386 says that a refill writes the pair into BRAM even if the permission check failed:
`RefusedWriteEvicts` shows that it writes an empty pair over a slot.

Modelling decisions:

- HLS streams are FIFOs without a depth. Memory writes take effect when issued; reads are answered in
  order, at any later time.
- A node byte is a sequence of eight booleans, bit 0 first. DRAM is a sequence of bytes (buddy) or a map
  from addresses to buckets (page table), zero at the start.
- Buddy: the managed base is a constructor argument instead of arriving on the init stream. The lookup
  loop of `alloc` has an unsigned guard that is always true (alloc/buddy/buddy.cpp:153); the model takes
  the "memory full" exit that follows it. A level-0 line is flushed when full although
  alloc/buddy/buddy.cpp:662 asserts level > 0; the model gives level 0 the metadata offset 0, which no
  other level uses.
- Page table: the key comparison ignores the bitmap, so key 0 matches empty slots; the map theorems are
  about non-zero keys. A GET refill copies key and value but not the permission bit, so they are about
  read-intent GETs; `PagePermissions` treats the others. `Pipeline.spec` is a history field that no stage reads.
- The bucket allocator answers with a refusal or with a 64-byte aligned address of a bucket not in use;
  an answer that is neither is not taken.
- In the pipeline the reservation table is the queue of indices; `Reservation.Ring` proves that the ring
  array of the source implements that queue. The pipeline never pops it when empty.
- RDM: the environment is the list of everything it is going to send; each item may arrive at any time.
- Lemmas about recursive functions carry `{:induction false}`: every induction is written out in the proof.
- XDMA: the 64-bit halves of a descriptor's addresses are one number, and its control word is split into
  its four fields.

## Model

| member | source | states |
|---|---|---|
| `Log2Search.Log2` | include/fpga/log2.h:17-32 | for every power-of-two width the shift-halving loop gives floor(log2), and 0 for 0 |
| `Log2Search.OrderBase2` | include/fpga/log2.h:34-41 | the result is the least exponent whose power of two reaches n |
| `ByteMasks.TestIsAnySet` | alloc/buddy/buddy.cpp:427-440 | the masked test is true exactly when some bit of the run is set, for runs cut off at the byte's end as well |
| `ByteMasks.MaskedIsSetClear` | alloc/buddy/buddy.cpp:448-464 | or-ing and and-not-ing the shifted mask set and clear exactly the run |
| `ByteMasks.CascadeIsGetFree` | alloc/buddy/buddy.cpp:498-539 | the three if-cascades return the first free aligned run, or the last position |
| `BuddyCache.GetFree` | alloc/buddy/buddy.cpp:466-539 | the index is aligned, everything before it is taken, and if it is taken itself no aligned run is free |
| `BuddyGeometry.AddrToTagIsNode` | alloc/buddy/buddy.cpp:578-585 | the tag slice of an address names the tree node the address falls into |
| `BuddyGeometry.AddrToIdxIsDigit` | alloc/buddy/buddy.cpp:587-599 | the index slice is the last octal digit of the cell, and the other digits are the node |
| `BuddyGeometry.ChildTag` | alloc/buddy/buddy.cpp:641-649 | parent tag and index rebuild the child's tag, for every level and every ORDER_MAX |
| `BuddyGeometry.BlockAddress` | alloc/buddy/buddy.cpp:601-606 | the finished tag chain is the block's byte address, also when ORDER_MAX is no multiple of three |
| `BuddyGeometry.NodeAtInverts` | alloc/buddy/buddy.cpp:578-599 | free's decomposition of an address inverts alloc's tag chain, and the block ends inside the managed space |
| `BuddyGeometry.NodeAtUp` | alloc/buddy/buddy.cpp:243-254 | the nodes free visits going up are the ancestors of the block's cell |
| `BuddyGeometry.OrderSize` | alloc/buddy/buddy.cpp:564-576 | width times cell size at the order's level is 2^order units, padded or not |
| `BuddyGeometry.MetaAddrInjective` | alloc/buddy/buddy.cpp:651-670 | different nodes have different metadata bytes, all inside an area of size (8^LEVEL_MAX)/7 |
| `BuddyGeometry.MetaAddrOnto` | alloc/buddy/buddy.cpp:651-670 | every byte of that area is some node's |
| `BuddyGeometry.ApartRanges` | alloc/buddy/buddy.cpp:129-219 | blocks that share no tree cell share no byte |
| `BuddyGeometry.BlockPlacement` | alloc/buddy/buddy.cpp:129-219 | a block lies in the managed range, has a power-of-two size and starts at a multiple of it |
| `BuddyCache.DropLine` | alloc/buddy/buddy.cpp:309-319 | giving up a line and writing a byte to its DRAM place changes the combined view at that node only |
| `BuddyCache.PutLine` | alloc/buddy/buddy.cpp:195-209 | writing a line changes the combined view at its node only and keeps the cache coherent |
| `BuddyCache.WriteMeta` | alloc/buddy/buddy.cpp:297-304 | writing the DRAM byte of an uncached node changes the combined view at that node only |
| `BuddyAllocator.Buddy.constructor` | alloc/buddy/buddy.cpp:27-63 | the invariant holds, the one live block is the reserved one at address 0, and its order is the rounded-up logarithm of the metadata size; level l has the lesser of 8^l and the associativity as lines |
| `BuddyAllocator.Buddy.TagInCache` | alloc/buddy/buddy.cpp:396-408 | finds the first valid line with the tag, and reports a hit exactly when there is one |
| `BuddyAllocator.Buddy.GetValidFreeSet` | alloc/buddy/buddy.cpp:410-425 | succeeds exactly when some valid line of the set has a free aligned run, and returns the first such line and its first run |
| `BuddyAllocator.Buddy.ChooseLine` | alloc/buddy/buddy.cpp:372-394 | an invalid line if there is one, else the round-robin line and the next counter value |
| `BuddyAllocator.Buddy.FlushLine` | alloc/buddy/buddy.cpp:309-319 | the combined view does not change, the line is invalid, nothing outside the metadata area is written |
| `BuddyAllocator.Buddy.FindLine` | alloc/buddy/buddy.cpp:151-169 | finds room exactly when a cached line on the request's level has the run or one above has a bit, and ends on the deepest such level, at its first line and there at the first run |
| `BuddyAllocator.Buddy.MarkLine` | alloc/buddy/buddy.cpp:171-185 | exactly the run is added to the view, whether or not the line is flushed; the node stays in the cache unless it became full, and no other line changes |
| `BuddyAllocator.Buddy.MakeRoom` | alloc/buddy/buddy.cpp:191-193 | the first invalid line, else the next round robin, is given up; the combined view and every other line stay |
| `BuddyAllocator.Buddy.LoadLine` | alloc/buddy/buddy.cpp:189-214 | the node loaded on the way down is empty, so ignoring the result of get_valid_free_line is sound and index 0 is taken; only the line given up for it changes |
| `BuddyAllocator.Buddy.Descend` | alloc/buddy/buddy.cpp:187-218 | from a free cell the downward loop ends with exactly one new block of the requested order added, the first under that cell; each level gives up one line for its node |
| `BuddyAllocator.Buddy.Place` | alloc/buddy/buddy.cpp:171-218 | from the run found, exactly one new block is added, first under the cell marked; one line of the starting level changed and each level below gave up one |
| `BuddyAllocator.Buddy.Alloc` | alloc/buddy/buddy.cpp:129-219 | succeeds exactly when a cached line has room; then one new disjoint block of size 2^order units at the returned address is live and the tree shows it; it lies first under the first free run of the first line with room on the deepest level with room, sets no new bit above that level, and leaves the nodes on its way in the cache unless they became full; on failure nothing changed |
| `BuddyAllocator.FirstUnder` | alloc/buddy/buddy.cpp:151-218 | a block first under a free cell of a node in use sets no new bit above that cell's level, and the cell was clear |
| `BuddyAllocator.Buddy.CheckRequest` | alloc/buddy/buddy.cpp:239-272 | for every request the upward check passes if and only if some cell of the named run is in use, wherever its ancestors are held |
| `BuddyAllocator.Buddy.ClearBits` | alloc/buddy/buddy.cpp:276-304 | one round clears exactly the run in the view, in cache or DRAM, and reports whether the node became empty |
| `BuddyAllocator.Buddy.ClearPath` | alloc/buddy/buddy.cpp:274-306 | clearing and merging upwards leaves exactly the tree of what the live blocks have left outside the run, unless one of a deeper level lies under it; in any case the run's bits are clear, deeper nodes are untouched, and a line is given up only if its node became empty |
| `BuddyAllocator.Buddy.Free` | alloc/buddy/buddy.cpp:221-307 | for every request: succeeds exactly when some cell of the run is in use; the answer is right, and the tree that of the other live blocks, if and only if the run is a live block or no cell of it is in use; after a success the tree is that of some set of disjoint blocks if and only if no deeper live block lies under the run |
| `BuddyAllocator.FoundIsFree` | alloc/buddy/buddy.cpp:151-169 | a clear run in a valid line belongs to no live block of any level |
| `BuddyAllocator.FreshNodeEmpty` | alloc/buddy/buddy.cpp:195-209 | the node below a free cell is zero in the view and not cached |
| `BuddyAllocator.NewBlock` | alloc/buddy/buddy.cpp:171-218 | marking free cells makes a new well-placed block live and the tree shows it |
| `BuddyTree.RemainingBits` | alloc/buddy/buddy.cpp:274-306 | with no block under it, giving back a run in use clears its cells and leaves the bits of what the other and the cut blocks still hold, plus the path to its node |
| `BuddyTree.RemainingApart` | alloc/buddy/buddy.cpp:274-306 | what is left of disjoint blocks is a set of disjoint blocks |
| `BuddyAllocator.StepUp` | alloc/buddy/buddy.cpp:276-304 | for every run in use with no block under it, clearing one level leaves the remaining tree plus the path above an emptied node |
| `BuddyAllocator.StrayHidesDeeper` | alloc/buddy/buddy.cpp:274-306 | a run cleared above a deeper live block leaves a tree that is that of no set of disjoint blocks |
| `BuddyAllocator.Freed` | alloc/buddy/buddy.cpp:274-306 | what a successful free makes of the tree, in all three cases: a live block, a run of a live block's level, a run above a deeper block |
| `BuddyAllocator.WrongOrder` | alloc/buddy/buddy.cpp:221-272 | freeing a live block with another order: refused if that is of a deeper level; accepted on its own level, where a run no wider leaves the rest; accepted on a higher level, where it clears bits above the block |
| `BuddyAllocator.MarkedRunTests` | alloc/buddy/buddy.cpp:239-272 | if a cell of the run is in use, free finds a set bit at every level up to the root |
| `BuddyAllocator.StrayHidesBlock` | alloc/buddy/buddy.cpp:274-306 | where a run in use is cleared without being a live block, the tree is no longer that of the live blocks |
| `BuddyAllocator.PartOfBlock` | alloc/buddy/buddy.cpp:427-440 | a run of another width at the start of a live block passes the check and is no live block |
| `BuddyAllocator.ReservedHalfMarked` | alloc/buddy/buddy.cpp:42-52 | right after construction for a 30-bit space, order 13 at address 0 is such a request, and the other half of the reserved block is what is left |
| `BuddyAllocator.MetaOrderFits` | alloc/buddy/buddy.cpp:30-33 | the reserved order is a legal order for every configuration |
| `BuddyAllocator.ShiftedMeta` | include/fpga/mem_common.h:84-94 | the metadata size after the truncating shift is nothing, a power of two, or strictly between two, by where the shift falls |
| `BuddyAllocator.ReservedCoversMeta` | alloc/buddy/buddy.cpp:30-52 | the reserved block covers the metadata area if and only if BUDDY_MIN_SHIFT is at most 3 LEVEL_MAX - 6 or above 3 LEVEL_MAX - 3 |
| `BuddyAllocator.ConfiguredSpacesCovered` | include/fpga/mem_common.h:49-94 | both configured spaces (30 and 32 bits) meet that, with order 14 |
| `BuddyAllocator.SmallSpaceNotCovered` | include/fpga/mem_common.h:84-94 | a configuration that does not: 73 bytes of metadata, 64 reserved |
| `BuddyRuns.LiveBlocksSafe` | alloc/buddy/buddy.cpp:129-307 | live blocks share no byte, lie in the managed range and are aligned to their size |
| `BuddyRuns.LiveBlocksOffMetadata` | alloc/buddy/buddy.cpp:42-52 | if the reserved block covers the metadata area no other live block holds a byte of it |
| `BuddyRuns.SameLiveSameView` | alloc/buddy/buddy.cpp:129-307 | the tree is a function of the live blocks, whatever is cached and whatever was evicted |
| `BuddyRuns.ClearBitMeansEmpty` | alloc/buddy/buddy.cpp:189-215 | a clear bit means the child node is zero in the view and no valid line holds it |
| `BuddyRuns.ChangesOnePath` | alloc/buddy/buddy.cpp:129-307 | one more block changes bits on the path from the root to it and nowhere else |
| `BuddyRuns.AllocThenFree` | alloc/buddy/buddy.cpp:129-307 | freeing the block just allocated succeeds and restores the exact tree, and the allocation fails only where no cached line has room |
| `BuddyRuns.Run` | alloc/buddy/buddy.cpp:129-307 | over every run of allocs and frees of held blocks each operation adds or takes away its one holding, no free fails, held ranges are disjoint and aligned, they are off the metadata in every configuration that covers it, nothing else is written, and giving all back restores the constructor's tree |
| `BuddyRuns.HeldSafe` | alloc/buddy/buddy.cpp:129-307 | the byte ranges a client holds are pairwise disjoint and well placed |
| `BuddyRuns.ReservedPlace` | alloc/buddy/buddy.cpp:30-52 | in every reachable state the reserved block starts the space and covers the metadata exactly in the configurations that cover it |
| `BuddyRuns.Handle` | alloc/buddy/buddy.cpp:86-127 | an ALLOC succeeds exactly when a cached line has room, and through the base offset on 32 bits its address is one free answers rightly; every free succeeds exactly when a cell of its run is in use and keeps the invariant exactly when no deeper live block lies under it; unknown opcodes fail and change nothing |
| `HashWords.Compare` | mm/paging_hashed/hls_mapping/data_path.cpp:130-141 | the loop finds the first slot with the key, ignoring the bitmap, or 7 |
| `HashWords.FindEmptySlotDram` | mm/paging_hashed/hls_mapping/data_path.cpp:272-284 | the loop finds the first unmarked slot, or -1 |
| `HashWords.ChainPointerRoundTrip` | mm/paging_hashed/hls_mapping/data_path.cpp:438-449 | encoding an allocated address as a chain pointer and decoding it give the address back modulo 2^32, also below the table base |
| `HashWords.BucketsInOrder` | mm/paging_hashed/hls_mapping/dm.cpp:55-60 | the table starts at its base and bucket follows bucket at 64 bytes |
| `HashWords.DmAddrInjective` | mm/paging_hashed/hls_mapping/dm.cpp:55-60 | different bucket numbers have different DRAM addresses |
| `PageTableMap.WalkHit` | mm/paging_hashed/hls_mapping/data_path.cpp:483-536 | if the key is in the chain the walk stops at its first bucket with that slot, value and address |
| `PageTableMap.WalkMiss` | mm/paging_hashed/hls_mapping/data_path.cpp:537-590 | if not, a SET is left with the first free slot of the first bucket that has one, or with the last bucket and none |
| `PageTableMap.SetChain` | mm/paging_hashed/hls_mapping/data_path.cpp:309-466 | a SET leaves a good chain with its pair in and every other key as before, by replacing, filling or extending |
| `PageTableMap.ExecPermits` | mm/paging_hashed/hls_mapping/data_path.cpp:331-375 | a request changes the permission DRAM holds for a key only if it is a SET of that key |
| `PageTableMap.ExecChains` | mm/paging_hashed/hls_mapping/data_path.cpp:157-593 | every request keeps all chains acyclic, disjoint, with keys of their own hash and no key twice, and changes the map at a SET's key only |
| `PageTableMap.ExecBram` | mm/paging_hashed/hls_mapping/data_path.cpp:309-411 | BRAM stays a part of the map under SETs, evictions and refills |
| `PageTableMap.ExecGet` | mm/paging_hashed/hls_mapping/data_path.cpp:157-593 | a read-intent GET of a non-zero key returns the map's value, or fails if there is none |
| `PageTableMap.ExecKeepsGood` | mm/paging_hashed/hls_mapping/data_path.cpp:157-593 | every request keeps the whole table invariant |
| `PageTableMap.FailedSetStaysReadable` | mm/paging_hashed/hls_mapping/data_path.cpp:337-366 | when the allocator fails a SET that needs a bucket, the SET reports failure, yet the pair is in BRAM and a following GET returns it |
| `PageTableMap.RunIsMap` | mm/paging_hashed/hls_mapping/data_path.cpp:157-593 | after every run from zeroed tables the tables are the map of latest SETs |
| `PageTableMap.GetReturnsLatestSet` | mm/paging_hashed/hls_mapping/data_path.cpp:157-593 | in every run a read-intent GET returns the value of the latest SET of its key, and fails if there was none |
| `PageTableMap.ReadReturnsLatestMapping` | mm/paging_hashed/hls_mapping/data_path.cpp:23-621 | the same in terms of the mapping requests remux takes, for both SET opcodes, with the reply on the request's own channel |
| `PageTableMap.ExecWriteGet` | mm/paging_hashed/hls_mapping/data_path.cpp:157-593 | on any good tables a write-intent GET is granted if and only if BRAM or DRAM has the key with the permission bit, and then returns the map's value |
| `PageTableMap.SetGrants` | mm/paging_hashed/hls_mapping/data_path.cpp:331-375 | right after a SET a write-intent GET of its key is granted if and only if the SET gave the permission |
| `PageTableMap.WriteAfterSet` | mm/paging_hashed/hls_mapping/data_path.cpp:23-73 | the same in terms of the mapping requests: exactly opcode 0x82 gives write permission |
| `PagePermissions.RunPermits` | mm/paging_hashed/hls_mapping/data_path.cpp:309-466 | after every run the permission DRAM holds for a key is that of its latest SET |
| `PagePermissions.RunSays` | mm/paging_hashed/hls_mapping/data_path.cpp:309-411 | after every run, if BRAM holds a key, it is with the permission of the latest SET or of the pair a later GET overwrote with it |
| `PagePermissions.WriteGetGranted` | mm/paging_hashed/hls_mapping/data_path.cpp:157-593 | in every run a write-intent GET is granted if and only if the latest SET of its key was writable or BRAM holds the key under a writable bit; a writable key is always granted, with the latest SET's value |
| `PagePermissions.WriteGetWithoutCopy` | mm/paging_hashed/hls_mapping/data_path.cpp:157-593 | when no GET copied the key since its latest SET, it is granted if and only if that SET was writable |
| `PagePermissions.StaleGrant` | mm/paging_hashed/hls_mapping/data_path.cpp:379-411 | a read that misses a full BRAM bucket whose first slot is writable makes the next write request for its key granted |
| `PagePermissions.ReadOnlyKeyWritten` | mm/paging_hashed/hls_mapping/data_path.cpp:379-411 | a run of ten requests in which a key whose only SET was read-only is granted for writing |
| `PagePermissions.RefusedWriteEvicts` | mm/paging_hashed/hls_mapping/data_path.cpp:379-411 | a write-intent GET that DRAM refuses overwrites a BRAM slot with an empty pair, not with its own as the comment there says |
| `PagePermissions.ZeroKeyRead` | mm/paging_hashed/hls_mapping/data_path.cpp:130-141 | on the empty tables a read of address 0 succeeds although it was never SET |
| `PagePermissions.RightButForZero` | mm/paging_hashed/hls_mapping/data_path.cpp:130-141 | reads of a key return its latest SET in every run if and only if the key is not 0 |
| `PageBram.SetWrites` | mm/paging_hashed/hls_mapping/data_path.cpp:309-337 | a SET writes its pair over its own BRAM slot, else into the first free one, else over the first, marks it, and changes no other |
| `PageBram.RunMarks` | mm/paging_hashed/hls_mapping/data_path.cpp:309-411 | after every run, whatever the allocator answered, every key in BRAM is in a marked slot |
| `PageBram.OthersKept` | mm/paging_hashed/hls_mapping/data_path.cpp:309-411 | while its BRAM bucket has a free slot or the key, a request keeps every other pair there with value and permission; a full bucket loses its first pair only; other buckets never change |
| `PageBram.SetCaches` | mm/paging_hashed/hls_mapping/data_path.cpp:309-337 | a SET leaves its pair in BRAM with its value and permission |
| `PageBram.ReadCaches` | mm/paging_hashed/hls_mapping/data_path.cpp:379-411 | a read of a key that has a value leaves it in BRAM; any other read leaves BRAM as it was |
| `PageBram.NeedsBucketExactly` | mm/paging_hashed/hls_mapping/data_path.cpp:537-590 | a SET needs a new bucket if and only if its chain neither holds the key nor has a free slot |
| `PageBram.SetPlace` | mm/paging_hashed/hls_mapping/data_path.cpp:339-467 | in DRAM a SET goes over its key, else into the first free slot of the first bucket with one, else into a new bucket behind the last; refused, it writes nothing there; no other chain changes |
| `PageBram.SetReply` | mm/paging_hashed/hls_mapping/data_path.cpp:450-462 | a SET fails if and only if it needs a bucket and gets none, and its reply names the value it replaced, or 0 |
| `PageBram.UnknownReply` | mm/paging_hashed/hls_mapping/data_path.cpp:415-418 | a request of an unknown opcode changes nothing and is answered from DRAM |
| `PageBram.HitBits` | mm/paging_hashed/hls_mapping/data_path.cpp:182-198 | the low byte of the internal status is 1 for a hit in BRAM and 16 for one in DRAM, where a GET that BRAM answers does not look |
| `PageFull.NextSet` | mm/paging_hashed/hls_mapping/data_path.cpp:521-562 | after n SETs of keys of chain 0 the next one needs another bucket if and only if n is 7, and otherwise takes the next slot |
| `PageFull.FailedSetRead` | mm/paging_hashed/hls_mapping/data_path.cpp:452-455 | a run of nine requests: eight SETs of one chain, the last of which is refused a bucket and fails, and a read that returns its value all the same |
| `Reservation.Reserve` | mm/paging_hashed/hls_mapping/resv_table.cpp:27-59 | a reservation appends the index on success and changes nothing otherwise; entries stay distinct and fewer than 16 |
| `Reservation.Ring.Pop` | mm/paging_hashed/hls_mapping/resv_table.cpp:21-25 | a pop without an index releases exactly the oldest entry; popped when empty, the ring reads as full |
| `Reservation.Ring.Resv` | mm/paging_hashed/hls_mapping/resv_table.cpp:27-59 | the ring array with its scan refines the queue reservation, result code included, and a ring that reads as full refuses |
| `Reservation.Call` | mm/paging_hashed/hls_mapping/resv_table.cpp:7-60 | one call is the pop, then the reservation; the table stays a queue if and only if it is not popped when empty |
| `PagePipeline.Pipeline.constructor` | mm/paging_hashed/hls_mapping/data_path.cpp:635-705 | the empty pipeline over zeroed memories meets the invariant |
| `PagePipeline.Pipeline.Remux` | mm/paging_hashed/hls_mapping/data_path.cpp:23-73 | takes one request, the read channel first, and fixes its place in the order |
| `PagePipeline.Pipeline.ComputeHash` | mm/paging_hashed/hls_mapping/hash.cpp:18-31 | hands the next request on with its hash and keeps the invariant |
| `PagePipeline.Pipeline.ReadBram` | mm/paging_hashed/hls_mapping/data_path.cpp:82-128 | reserves before reading and retries when refused; keeps the invariant |
| `PagePipeline.Pipeline.ReservationTable` | mm/paging_hashed/hls_mapping/resv_table.cpp:7-60 | each request in flight that has its reservation holds exactly one entry, and the pop releases the answered one's |
| `PagePipeline.Pipeline.CompareStage` | mm/paging_hashed/hls_mapping/data_path.cpp:157-219 | what it reads is current although a later-answered SET may be half done |
| `PagePipeline.Pipeline.FillS1` | mm/paging_hashed/hls_mapping/data_path.cpp:469-593 | one call of the walk; what it hands on is what the request would find running alone |
| `PagePipeline.Pipeline.FillS2` | mm/paging_hashed/hls_mapping/data_path.cpp:286-467 | one call of insert, refill or chain extension; memory is the finished requests' tables but for the half-done one, also between the two writes of an extension; an answered address is the bucket the SET goes on with, and only a refusal makes it fail |
| `PagePipeline.Pipeline.Demux` | mm/paging_hashed/hls_mapping/data_path.cpp:595-621 | answers on the request's channel and pops one reservation |
| `PagePipeline.ExecLocal` | mm/paging_hashed/hls_mapping/data_path.cpp:635-705 | a request does not disturb one with another BRAM index, since that is the low part of the DRAM index |
| `PagePipeline.CommitSpec` | mm/paging_hashed/hls_mapping/data_path.cpp:286-467 | finishing the next request extends the one-at-a-time run by it |
| `PagePipeline.RemuxAsks` | mm/paging_hashed/hls_mapping/data_path.cpp:23-73 | on each channel, what was taken followed by what waits does not change when remux takes the oldest of the read channel first |
| `PagePipeline.WriteDram` | mm/paging_hashed/hls_mapping/data_path.cpp:456-462 | the last write of a SET makes DRAM hold exactly the chains after it |
| `PagePipeline.NewBucketWork` | mm/paging_hashed/hls_mapping/data_path.cpp:421-449 | writing the new bucket before the link disturbs no chain |
| `PagePipeline.Move` | mm/paging_hashed/hls_mapping/data_path.cpp:635-705 | every call of every stage and every answer of the environment keeps the invariant; on each channel the requests taken and waiting grow by the arriving one and by nothing else, and the allocator's answers by the one that comes |
| `PagePipeline.RunPipeline` | mm/paging_hashed/hls_mapping/data_path.cpp:635-705 | under every interleaving: on each channel, what remux took followed by what waits is what arrived there, in order; the replies that have left each channel are, in remux order, those of one-at-a-time execution in which the requests that need a bucket take the allocator's answers in turn; if no step of the interleaving is a refusal, every read of a non-zero key returned the latest SET |
| `PagePipeline.PlanNext` | mm/paging_hashed/hls_mapping/data_path.cpp:421-467 | the next request that needs a bucket takes the next answer of the allocator, and one that needs none takes none |
| `PagePipeline.AllAreLatest` | mm/paging_hashed/hls_mapping/data_path.cpp:635-705 | in every state before the first refusal, every reply that left a channel answers its request there, a read-intent GET with the latest SET taken before it |
| `PagePipeline.MemoryMarked` | mm/paging_hashed/hls_mapping/data_path.cpp:309-411 | in every reachable state each key in the BRAM memory is in a marked slot, also while a SET is half done |
| `PagePipeline.RepliesAreLatest` | mm/paging_hashed/hls_mapping/data_path.cpp:635-705 | the same for the k-th reply of a channel: it answers the k-th request of that channel, and for a read-intent GET of a non-zero key is the latest SET taken before it |
| `PageProgress.AdvanceWalk` | mm/paging_hashed/hls_mapping/data_path.cpp:483-592 | the chain walk makes progress with each call, bounded by the chain's length |
| `PageProgress.AdvancePop` | mm/paging_hashed/hls_mapping/resv_table.cpp:21-59 | a released entry is progress even if the waiting reservation is refused again |
| `PageProgress.ReservationFree` | mm/paging_hashed/hls_mapping/data_path.cpp:82-128 | when nothing is behind read_bram its reservation cannot be refused |
| `PageProgress.Drain` | mm/paging_hashed/hls_mapping/data_path.cpp:635-705 | from every reachable state the stages empty the pipeline; on each channel the history is then what was taken and was waiting, and every request has its one-at-a-time reply there, with the allocator's answers each used by the next request that needed a bucket; reads return the latest SET if none was a refusal |
| `PageProgress.ServeAll` | mm/paging_hashed/hls_mapping/data_path.cpp:635-705 | after any interleaving, running on gives each request that arrived on a channel exactly one reply there, in order, together those of one-at-a-time execution of a merge of the two streams with the allocator's answers in the order they came; reads return the latest SET if none of them was a refusal |
| `RdmReplies.ParseWire` | app/rdma/rdm_mapping/top.cpp:29-95 | the parser finds exactly the packets of the stream, numbered in order, and frames each payload |
| `RdmReplies.AllocList` | app/rdma/rdm_mapping/top.cpp:102-191 | each ALLOC takes the next answer and the next virtual address, each payload passes whole |
| `RdmReplies.MapList` | app/rdma/rdm_mapping/top.cpp:199-302 | each request that maps takes the next answer; commands are those of the successful READs and WRITEs |
| `RdmReplies.AccessList` | app/rdma/rdm_mapping/top.cpp:310-396 | each request gives one reply packet, a good READ with its own run of data units |
| `RdmPipeline.KnownToAccess` | app/rdma/rdm_mapping/top.cpp:137-163 | whatever the input, access never gets an opcode that would hold it in its header state |
| `RdmPipeline.OnlyAllocsAsk` | app/rdma/rdm_mapping/top.cpp:137-163 | whatever the input, the allocator is asked at most once for each ALLOC and for nothing else |
| `RdmPipeline.Rdm.Parse` | app/rdma/rdm_mapping/top.cpp:29-95 | takes one unit and does the parser's step; the final outputs are what they were going to be |
| `RdmPipeline.Rdm.AllocAddress` | app/rdma/rdm_mapping/top.cpp:121-191 | the same for alloc_address, which waits for a request, a data unit or an answer by its state |
| `RdmPipeline.Rdm.MapStage` | app/rdma/rdm_mapping/top.cpp:199-302 | the same for map |
| `RdmPipeline.Rdm.AccessStage` | app/rdma/rdm_mapping/top.cpp:310-396 | the same for access |
| `RdmPipeline.Rdm.ReplyStage` | app/rdma/rdm_mapping/top.cpp:398-416 | forwards the next unit to the network |
| `RdmPipeline.Rdm.RdPipeStage` | app/rdma/rdm_mapping/top.cpp:451-465 | turns the next read command into a datamover command |
| `RdmPipeline.Rdm.WrPipeStage` | app/rdma/rdm_mapping/top.cpp:493-556 | takes a command or, while one is open, a data word, and marks the last one |
| `RdmResults.RunRdm` | app/rdma/rdm_mapping/top.cpp:558-664 | under every interleaving what has left, requests to the allocator and the mapping IP included, is a beginning of what the stages in a row produce, and all of it once no stage can move |
| `RdmResults.FinishedSame` | app/rdma/rdm_mapping/top.cpp:43-73 | request i keeps its headers and size through all stages and carries number i, counted from 1 |
| `RdmResults.RepliesInOrder` | app/rdma/rdm_mapping/top.cpp:29-416 | for every list of well-formed packets the output is one reply packet per request, in order, the memory commands are those of the mapped requests, and the allocator and the mapping IP are asked for just what the requests need |
| `RdmResults.ReplyShape` | app/rdma/rdm_mapping/top.cpp:324-395 | in a reply only the final unit has `last`, a good READ has exactly ceil(len/64) data units, the opcode tells the outcome, and the other header fields are the request's or the allocation's |
| `RdmResults.AllocatedApart` | app/rdma/rdm_mapping/top.cpp:97-113 | the virtual ranges handed out to successful ALLOCs are page aligned and never meet |
| `RdmResults.ByteCount` | app/rdma/rdm_mapping/top.hpp:69-85 | the 23-bit byte count is the rounded length exactly for lengths up to 2^23 - 64 |
| `RdmResults.ByteCountLost` | app/rdma/rdm_mapping/top.cpp:455-459 | for the 63 lengths above, it is 0 |
| `RdmResults.WrCuts` | app/rdma/rdm_mapping/top.cpp:503-555 | the write pipe hands the data words out in order, by the commands' unit counts, marking each run's last |
| `RdmResults.WritesPaired` | app/rdma/rdm_mapping/top.cpp:284-300 | unless a WRITE succeeds after a refused one, each command gets exactly its own packet's data |
| `RdmResults.RefusedDataWritten` | app/rdma/rdm_mapping/top.cpp:280-299 | otherwise a refused packet's data reaches memory |
| `RdmResults.WritesPairedExactly` | app/rdma/rdm_mapping/top.cpp:253-300 | the j-th word that reaches memory is unit j of the stream of all WRITE payloads; that is the stream of the payloads to be written if and only if no WRITE succeeds after a refused one |
| `RdmResults.RefusedWordWritten` | app/rdma/rdm_mapping/top.cpp:253-300 | two one-word WRITEs, the first refused: memory gets the first one's word at the second one's address |
| `RdmResults.WritesPairedByWords` | app/rdma/rdm_mapping/top.cpp:253-300 | so for payloads that can be told apart by their words memory gets the right words exactly then |
| `RdmAnswers.AllocAnswered` | app/rdma/rdm_mapping/top.cpp:97-191 | the m-th ALLOC of the packets takes the m-th answer of the allocator, its address, and the pages after those handed out before |
| `RdmAnswers.MapAnswered` | app/rdma/rdm_mapping/top.cpp:199-302 | the n-th request that maps takes the n-th answer of the mapping IP and sent the n-th request to it |
| `RdmAnswers.CommandAt` | app/rdma/rdm_mapping/top.cpp:253-300 | the command of a mapped request stands behind those of the requests before it |
| `RdmAnswers.AllocGets` | app/rdma/rdm_mapping/top.cpp:121-270 | for every list of packets an ALLOC succeeds exactly with its allocator answer, gets its address, and asks for the mapping of just that address to its own virtual one |
| `RdmAnswers.AccessGets` | app/rdma/rdm_mapping/top.cpp:199-302 | for every list of packets a READ or WRITE asks for the mapping of the address it names, and its datamover command goes to the address answered, with its own size |
| `RdmProgress.Finish` | app/rdma/rdm_mapping/top.cpp:558-664 | from every reachable state the stages run to an end, and then everything has left |
| `RdmProgress.Serve` | app/rdma/rdm_mapping/top.cpp:558-664 | after any interleaving, running on gives exactly one reply packet per well-formed request, in order, the paired writes, and the allocator and mapping requests the packets need |
| `XdmaSplit.SplitKeeps` | host/pcie_xdma/xdma/libxdma.c:2932-2949 | cutting a range keeps its bytes and their order, each piece between 1 and desc_blen_max and all but the last of that length |
| `XdmaSplit.SplitAllKeeps` | host/pcie_xdma/xdma/libxdma.c:2932-2949 | the same for a whole scatter list |
| `XdmaSplit.CountCovers` | host/pcie_xdma/xdma/libxdma.c:2915-2925 | the count of an entry covers its pieces if and only if the unsigned sum does not wrap |
| `XdmaSplit.SplitExact` | host/pcie_xdma/xdma/libxdma.c:2937-2948 | an entry takes exactly ceil(len / desc_blen_max) pieces |
| `XdmaSplit.ListCount` | host/pcie_xdma/xdma/libxdma.c:2915-2950 | over a list, pieces and count differ by what wrapped sums miss and what empty and long entries leave to spare |
| `XdmaSplit.CountedExactly` | host/pcie_xdma/xdma/libxdma.c:2915-2950 | the counted array holds every piece if and only if no more is missing than is to spare |
| `XdmaSplit.SeventeenForOne` | host/pcie_xdma/xdma/libxdma.c:2915-2925 | one entry of the greatest length under the default limit takes 17 pieces and counts as one |
| `XdmaSplit.InitRequest` | host/pcie_xdma/xdma/libxdma.c:2906-2957 | for every list of 32-bit lengths the array has the counted size and holds the cuts in order as far as it reaches; BUG_ON fires exactly for the lists that are not countable |
| `XdmaSplit.CutEntry` | host/pcie_xdma/xdma/libxdma.c:2937-2948 | the inner loop adds exactly the cuts of one entry after those before it |
| `XdmaChain.WalkVisitsAll` | host/pcie_xdma/xdma/libxdma.c:2134-2179 | following the next pointers, by the byte addresses the descriptors lie at, visits every descriptor once, in order, and there is no other way to follow them |
| `XdmaChain.StopsAtTheEnd` | host/pcie_xdma/xdma/libxdma.c:2829-2836 | the stop flags are on the descriptor where the walk ends and on no other; every other next pointer is the byte address of the following descriptor |
| `XdmaChain.BurstFits` | host/pcie_xdma/xdma/libxdma.c:2221-2246 | extra_adj names only descriptors inside the array and inside the next one's 4 KB page, at most 15, and is the largest such number |
| `XdmaChain.ChainMoves` | host/pcie_xdma/xdma/libxdma.c:2776-2800 | a chain moves exactly the bytes of its ranges, each once and in order, to consecutive endpoint addresses modulo 2^64 |
| `XdmaSubmit.Engine.DescInit` | host/pcie_xdma/xdma/libxdma.c:2134-2179 | links count descriptors and terminates the last |
| `XdmaSubmit.Engine.DescSet` | host/pcie_xdma/xdma/libxdma.c:2298-2318 | source and destination by direction, next pointer and control untouched |
| `XdmaSubmit.Engine.Build` | host/pcie_xdma/xdma/libxdma.c:2776-2800 | descriptor i gets piece i at the endpoint address after the bytes before it; the request moves past the pieces |
| `XdmaSubmit.Engine.DescEnd` | host/pcie_xdma/xdma/libxdma.c:2189-2218 | terminates a descriptor, keeping its reserved and control bits (on the packed word: `XdmaControl.LinkFields`) |
| `XdmaSubmit.Engine.ControlSet` | host/pcie_xdma/xdma/libxdma.c:2249-2260 | replaces the control byte only (on the packed word: `XdmaControl.ControlFields`) |
| `XdmaSubmit.Engine.DescAdjacent` | host/pcie_xdma/xdma/libxdma.c:2221-2246 | sets the adjacency only, limited by 15 and by the page |
| `XdmaControl.InitFields` | host/pcie_xdma/xdma/libxdma.c:2156-2168 | the initial packed word has the magic, no reserved and flag bits, and the count |
| `XdmaControl.AdjacentFields` | host/pcie_xdma/xdma/libxdma.c:2225-2245 | masking with 0xf0ff and or-ing in the magic and the shifted count sets the adjacency field only |
| `XdmaControl.LinkFields` | host/pcie_xdma/xdma/libxdma.c:2197-2217 | the same with no count ends a chain |
| `XdmaControl.ControlFields` | host/pcie_xdma/xdma/libxdma.c:2249-2260 | masking off the low byte and or-ing in the field replaces the flags only |
| `XdmaSubmit.Engine.TransferInit` | host/pcie_xdma/xdma/libxdma.c:2802-2846 | the array holds exactly the chain of the next batch, whatever it held before |
| `XdmaSubmit.Engine.Submit` | host/pcie_xdma/xdma/libxdma.c:3023-3153 | queues the batches one after another, stops at the first the engine refuses or that does not complete, and returns the sum or the error |
| `XdmaResults.SubmitMoves` | host/pcie_xdma/xdma/libxdma.c:2906-3140 | for every scatter list the descriptors of one submit move every host byte exactly once, in order, byte j to endpoint address ep + j |
| `XdmaResults.QueuedMoves` | host/pcie_xdma/xdma/libxdma.c:3032-3140 | however a submit ends, what was queued moves a prefix of that, and all of it when done |
| `XdmaResults.DoneWhenAllComplete` | host/pcie_xdma/xdma/libxdma.c:3096-3153 | a total is returned if and only if every transfer is queued and completes |
| `XdmaResults.TransfersAreChains` | host/pcie_xdma/xdma/libxdma.c:2802-2846 | every transfer is one chain of 1 to 2048 pieces, and every one but the last is full |
| `XdmaResults.TransferGroup` | host/pcie_xdma/xdma/libxdma.c:2802-2846 | transfer k carries exactly cuts 2048 k to 2048 k + 2047 |
| `XdmaResults.EveryTransfer` | host/pcie_xdma/xdma/libxdma.c:2802-2846 | each transfer of a submit is walked once through, stops at its end, no descriptor exceeds desc_blen_max, and no burst leaves the array or a 4 KB page |
| `XdmaResults.ReturnedTotal` | host/pcie_xdma/xdma/libxdma.c:2790-2796 | the returned total is the sum of the entry lengths if and only if no 2048 consecutive cuts, counted from the first, have 2^32 bytes |
| `XdmaResults.TotalLost` | host/pcie_xdma/xdma/libxdma.c:2790-2796 | two entries of 2^31 bytes go in one transfer, and a finished submit returns 0 |
| `MergeSort.MergedPermutes` | app/mergesort/hls/mergesort.cpp:97-140 | a merge is a permutation of its two inputs |
| `MergeSort.MergedSorted` | app/mergesort/hls/mergesort.cpp:97-140 | a merge of sorted sequences is sorted |
| `MergeSort.Merge` | app/mergesort/hls/mergesort.cpp:97-140 | in place, through the two buffers, the two neighbouring runs become their merge and nothing else changes |
| `MergeSort.PassDoubles` | app/mergesort/hls/mergesort.cpp:71-82 | a pass halves the number of sorted runs, doubles their width, and permutes |
| `MergeSort.MergePass` | app/mergesort/hls/mergesort.cpp:73-81 | the inner loop is exactly one pass over the array |
| `MergeSort.Sort` | app/mergesort/hls/mergesort.cpp:69-84 | for every power-of-two size the array ends sorted and a permutation of what it held |

## Left out

- Buddy completeness: evicted, partly free lines are never searched again, so `Alloc` is stated to succeed exactly when a cached line has room, not when memory has.
- Runs of the buddy allocator that go on after a free over a live block of a deeper level: the tree is then that of no set of blocks (`StrayHidesDeeper`). After every other free `Buddy.Alloc` and `Buddy.Free` apply again.
- PagePipeline.RepliesAreLatest: before the first refusal of the allocator (see `FailedSetRead`).
- PageTableMap.GetReturnsLatestSet: not after the allocator failed a SET (see `FailedSetStaysReadable`).
- RdmResults.WritesPaired: requires that no WRITE succeeds after a refused one, the exact condition of `WritesPairedExactly`.
- XdmaSubmit.Engine.Submit: requires a list the counted array can hold, since BUG_ON ends every other one (`InitRequest`).
- XdmaSplit.InitRequest: drops what the source stores past the array before BUG_ON. Signed overflow of the number of entries and failing allocation are not modelled.
- The poll and interrupt waits of an XDMA submit: only how each transfer ends is modelled.
- Bit offsets of keys, values, bitmap and chain pointer inside a 512-bit bucket; a bucket is a record here.
- Page table values are 32-bit words in the source and unbounded numbers here; nothing is computed from them.
- FIFO depths, back-pressure and datamover status words of all three pipelines.
- `keep` and `user` fields of the AXI streams.
- `flush_set`, `flush_children` and `dump_buddy_table` of the buddy allocator: not called, or output only.
- `buffering` of the RDM pipeline: a stage that only passes units on.
- LOAD_SCRATCH and RESULT_TO_DRAM of the merge sort: unfinished stride-2 copying.
- The rest of libxdma: probing, interrupts, registers, the cyclic receive ring.
- Other allocators, segment tables, the coordinator, the reconfiguration controller and host tools: they would add easy members only.
