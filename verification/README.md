# Verified models of the XUNIL kernel and its libraries

This project models eight parts of the system in Dafny and proves what they promise. Each part
has its own modules; `Words.dfy` holds the arithmetic they share.

* **The allocator** (`BinIndex`, `HeapRings`, `HeapLayout`, `HeapInvariant`, `HeapSteps`,
  `HeapBreak`, `HeapTheorems`, `Malloc`, `GuardedMalloc`, `HeapCheck`, `Realloc`,
  `IndependentAlloc`). dlmalloc as configured here works on
  one flat memory of words: chunk headers, footers, list links, bitmap words and the bin heads
  are addresses in it. `Heap.Valid` ties those words to an abstract sequence of chunks: sizes
  tile the arena up to top, in-use bits and footers tell the truth, no two binned chunks touch
  and none touches top, bin lists are circular and hold exactly the chunks of their sizes, large
  bins are sorted, a bin that is not empty has its map bit. The methods are the routines of the
  source; the client's view is the set of live blocks and the bytes in them. `HeapCheck` is the
  self-check that comes with the allocator, `Realloc` holds realloc and memalign, and
  `IndependentAlloc` the routine that takes many blocks at once.
* **The hash table** (`HashProbe`, `HashTable`). Open addressing with perturbed probing,
  tombstones, doubling and halving, as a finite map over keys up to the comparison function.
* **Priority queues** (`PriorityList`, `LinkedQueue`). The intrusive circular list over mutable
  links, and the stable priority queue it is.
* **Processes and message queues** (`MessageRing`, `Processes`, `ProcessTable`, `ProcessSteps`,
  `WaitingParents`, `Sleepers`,
  `ProcessManager`). Every kernel call runs up to its call of `scheduling()`; what it still has
  to do after that is a continuation stored with the process and done by `Resume`. `Kernel.Run`
  is any sequence of calls, resumptions and clock ticks; it keeps `Kernel.Valid`, bounds the wait
  of a process of top priority, and says until when a process sleeps.
* **The dining philosophers** (`Philosophers`), for any ring of at least three: a state machine
  whose steps are the critical sections and the waits on the private semaphores, and the shared
  arrays that follow it.
* **The GDB stub** (`GdbSerial`) and its **paged memory access** with the boot page tables
  (`Paging`).
* **64-bit division** (`Division`).
* **Text**: number printing and parsing (`Digits`, `NumberPrinter`, `NumberParser`) and substring
  search (`StringSearch`).

## Findings

What the code promises and does not keep, each with the condition and an input in the model:

* `iALLOc` sets the in-use flag of the chunk that malloc gave it (`shared/malloc.c:4533-4548`). A
  chunk from a fastbin may follow a free chunk, and then memory no longer describes a heap. This
  happens exactly when there are fastbin chunks, the total size is at most 72 bytes, and the head
  of the fastbin of that size has a clear flag (`IndependentAlloc.ClearHead`, `IAlloc`,
  `ReachClearHead`, `RuinedHeap`).
* `iALLOc` and `mEMALIGn` add sizes without a check (`shared/malloc.c:4491-4504`,
  `shared/malloc.c:4269-4272`). When the sum wraps, the chunk is smaller than the request
  (`IndependentAlloc.IAlloc`, `Realloc.MemAlign`, `Realloc.WrappedRequest`).
* `mEMALIGn` never returns for an alignment above 2^31, because the doubled alignment wraps to 0
  (`shared/malloc.c:4255`; `Realloc.DoublingNeverEnds`).
* A heap whose start and end are both unsuitable can be given a misaligned top
  (`shared/malloc.c:3139-3206`; `HeapBreak.MisalignedTop`).
* `sbrk` with a negative request can raise the break when the sum wraps, if the heap reaches into
  the upper half of memory (`kernel/mem.c:16-23`; `Malloc.Heap.Sbrk`).
* A hash table whose array could not be enlarged fills up, and then the lookup of an absent key
  never ends (`kernel/hash.c:54-81`; `HashTable.WalkStops`, `HashTable.Table.Crowd`,
  `HashTable.FullTable`). `hash_set` also enters the key when it returns -1
  (`kernel/hash.c:188-214`).
* `kill` does not wake a parent that waits in `waitpid` for the process killed, as `exit` does, so
  the parent goes on waiting for a child that has terminated (`kernel/processManager.c:447-478`).
  No other event leaves a parent so, and such a kill always does
  (`WaitingParents.KillOverlooks`, `ProcessManager.Kernel.Step`, `ProcessManager.LeftWaiting`).
* The stub of gdb sends the count character `$` for a run that leaves four bytes, for example four
  zero bytes (`kernel/gdb_serial.c:160-194`; `GdbSerial.DollarSent`, `GdbSerial.FourZeros`). The
  description of the remote protocol in the manual of GDB excludes `#` and `$` as counts. A text
  with a run of seven or 97 characters would get `#` or `}` inside, which ends or hides the end of
  the packet (`GdbSerial.CountSent`); the stub has no such text.
* The kernel's 64-bit division traps for a divisor of more than 32 bits whose 32 leading bits are
  all ones (`shared/div64.c:39`; `Division.DoDiv64`).
* `strtol` does not read the plus sign that the number printer puts out (`shared/strtol.c:28-31`;
  `NumberParser.PlusIsNotRead`).

Where the code and its comments differ, the models follow the code:

* The chunks of a large bin are taken from its end. Of chunks of equal size the oldest is taken
  first, as the overview comment says, except that one that is put in when the smallest chunk of
  the bin has that size goes to the end and is taken first: the comparison at
  `shared/malloc.c:3543` reads a size word with its flag (`Malloc.Heap.LargePosition`).
* `kill` on the calling process goes through `exit`, which clears the `killed` flag
  (`kernel/processManager.c:273-276`, `kernel/processManager.c:454-455`).

Modelling decisions that hold throughout: words are 32 bits and wrap where the source's do; calls
to the allocator from other parts appear as a parameter that says whether memory was granted;
statements of the source that write independent fields may be grouped differently, and a routine
that the source repeats inline (coalescing in `fREe` and `malloc_consolidate`, `queue_del` and
`queue_add` in the kernel) is one method or function. The heap starts with zeroed memory
(`kernel/boot/boot.c:35`), and its start is 8-aligned or its end page-aligned, as the linker
script makes it. The hash function is deterministic and agrees with the comparison. Process 0
never blocks or exits, numbers are in range, `kill` is not aimed at a dying process, and a
deleted message queue's number is not given out again while a process has still to wake from it.

## Model

| member | source | states |
|---|---|---|
| BinIndex.BranchFreeIsHighestBit | shared/malloc.c:2200-2216 | the branch-free code finds the same highest bit as the bsrl instruction, for every argument it can get |
| BinIndex.BinOfRange | shared/malloc.c:2223-2224 | a chunk of a given size has a bin, never bin 0, 1 or one past the last; small sizes have one bin each |
| BinIndex.LargeBinMonotone | shared/malloc.c:2187-2221 | a larger large size never has a smaller bin index, up to the last bin |
| BinIndex.BinOfMonotone | shared/malloc.c:2223-2224 | bin_index is monotone over all sizes, so a later bin holds no smaller chunk |
| BinIndex.SizeClasses | shared/malloc.c:2181-2224 | steps of 8 bytes below 256, four equal steps for every power of two above, and one bin from 16 megabytes up |
| HeapRings.RingInsert | shared/malloc.c:3560-3563 | the four stores that link a chunk between two neighbours turn one circular list into the list with it inserted there |
| HeapRings.RingRemove | shared/malloc.c:2147-2153 | unlink turns a circular list into the list without the chunk |
| HeapRings.RingFrame | shared/malloc.c:2144-2145 | a store outside the link fields of a bin leaves its list as it is |
| HeapLayout.SplitKeeps | shared/malloc.c:3593-3600 | cutting a chunk in two keeps the tiling of the arena, the truth of the in-use bits and the separation of free chunks |
| HeapLayout.MergeKeeps | shared/malloc.c:3787-3804 | joining two neighbouring chunks keeps them too |
| HeapLayout.PushTopKeeps | shared/malloc.c:3709-3717 | cutting a chunk from the bottom of top keeps them |
| HeapLayout.PopTopKeeps | shared/malloc.c:3820-3835 | giving the last chunk back to top keeps them |
| HeapLayout.PrevExists | shared/malloc.c:2019-2046 | a chunk that says its predecessor is free has a free predecessor, at the distance prev_size gives |
| HeapTheorems.WalkTiles | shared/malloc.c:2043-2049 | following size fields from the first chunk visits exactly the chunks and ends at top, with no gap and no overlap |
| HeapTheorems.Conservation | shared/malloc.c:2755-2864 | live, fastbin, binned and top bytes add up to the bytes obtained from sbrk |
| HeapTheorems.BlocksDisjoint | shared/malloc.c:1968-2081 | two live blocks share no byte, and each is 8-aligned and at least 16 bytes |
| HeapTheorems.FreeChunksPass | shared/malloc.c:2617-2654 | every binned chunk passes do_check_free_chunk |
| HeapTheorems.InuseChunksPass | shared/malloc.c:2657-2692 | every chunk in use passes do_check_inuse_chunk |
| HeapTheorems.ClientWrite | shared/malloc.c:1968-1969 | a write inside a live block keeps the whole heap invariant and every other live block |
| HeapBreak.FirstTopAligned | shared/malloc.c:3139-3206 | after the first two sbrk calls the end of top is 8-aligned exactly when one of the two heap limits makes it so |
| HeapBreak.MisalignedTop | shared/malloc.c:3139-3206 | a heap can be left with a misaligned top by some first request exactly when its start is misaligned, it holds a whole page, and rounding its whole pages up from the first aligned address passes its end |
| HeapBreak.OnePageHeap | shared/malloc.c:3139-3206 | a heap at address 4 of exactly one page is one of them |
| HeapBreak.FirstTopFits | shared/malloc.c:3150-3206 | the first top is large enough for the request that caused the extension |
| HeapBreak.GrowthFacts | shared/malloc.c:3018-3037 | the size asked from sbrk is a page multiple that covers the request and MINSIZE |
| Malloc.RequestFits | shared/malloc.c:1990-2008 | request2size gives an 8-aligned size of at least 16 bytes that leaves room for the request, and less than 16 bytes more |
| Malloc.RequestLeast | shared/malloc.c:1990-2008 | no smaller chunk size would do, and a request is refused exactly from 0xffffffe0 on |
| Malloc.Heap.constructor | shared/malloc.c:2487-2515 | the heap before the first request is in a state from which every call is safe |
| Malloc.Heap.Unlink | shared/malloc.c:2147-2153 | a binned chunk leaves its bin; lists, order, map and tags stay right |
| Malloc.Heap.Link | shared/malloc.c:3559-3563 | a free chunk enters a bin at a position; lists, order, map and tags stay right |
| Malloc.Heap.SplitVictim | shared/malloc.c:3593-3600 | the front of a free chunk is allocated and the rest becomes the one chunk of the unsorted bin or joins it |
| Malloc.Heap.Coalesce | shared/malloc.c:3781-3835 | a chunk released outside the fastbins is joined with its free neighbours or with top, and the invariant holds again; the run is top or the newest unsorted chunk |
| Malloc.Heap.ConsolidateBin | shared/malloc.c:3941-3987 | every chunk of one fastbin is released and coalesced |
| Malloc.Heap.Consolidate | shared/malloc.c:3899-3994 | afterwards all fastbins are empty, the same blocks are live, and none of their bytes changed |
| Malloc.Heap.Sbrk | kernel/mem.c:16-23 | a positive request moves the break or is refused when that would pass the end; a negative one is refused unless the sum wraps below the heap end, which cannot be with a heap in the lower half of memory; the break never moves down |
| Malloc.Heap.ExtendTop | shared/malloc.c:3097-3099 | contiguous memory from sbrk makes top longer |
| Malloc.Heap.LargePosition | shared/malloc.c:3540-3556 | the place found keeps a large bin sorted: a chunk not above the smallest goes to the end, any other before the first one that is not larger |
| Malloc.Heap.UnsortedStep | shared/malloc.c:3485-3564 | the last unsorted chunk is taken for an exact fit; cut when it is the last remainder and alone, what is left being the new last remainder and the one unsorted chunk; or put in its bin at its place, with the free chunks as before |
| Malloc.Heap.ProcessUnsorted | shared/malloc.c:3485-3564 | the unsorted list ends empty with the same free chunks and none of the exact size left out, or a block has been allocated: an exact fit, or the last remainder when it is the newest unsorted chunk |
| Malloc.Heap.RearFit | shared/malloc.c:3575-3582 | the rearmost chunk of a large bin that fits; all behind it are too small |
| Malloc.Heap.LargeScan | shared/malloc.c:3575-3604 | the first chunk of the bin that fits, from its small end, is the smallest free chunk that fits |
| Malloc.Heap.BinScan | shared/malloc.c:3606-3688 | the bitmap walk ends, clears only bits of empty bins, and finds the smallest free chunk that fits, the last one of its bin, or there is none; what a small request leaves of it becomes the last remainder |
| Malloc.Heap.UseTop | shared/malloc.c:3690-3724 | when no free chunk fits, the block is cut from top if it is large enough and otherwise comes from sYSMALLOc; without fastbin chunks it is always above all others |
| Malloc.Heap.TakeFast | shared/malloc.c:3424-3435 | a fastbin hit returns the block on top of the stack of that size and changes no other chunk |
| Malloc.Heap.TakeSmall | shared/malloc.c:3437-3458 | a small bin hit returns the oldest chunk of the exact size, a miss is an empty bin |
| Malloc.Heap.InitState | shared/malloc.c:2487-2515 | all bins empty, top a dummy of size 0, max_fast set |
| Malloc.Heap.FirstExtension | shared/malloc.c:3120-3206 | the first two sbrk calls make an aligned arena of one top chunk |
| Malloc.Heap.Grow | shared/malloc.c:3018-3206 | memory from sbrk makes top large enough and at most 16384 bytes larger than asked, keeping the arena consistent; failure changes nothing |
| Malloc.Heap.GrowAndCut | shared/malloc.c:3018-3301 | the block is cut from the grown top; failure changes no chunk and means the heap limit was in the way |
| Malloc.Heap.SysMalloc | shared/malloc.c:2880-3301 | with fastbin chunks it consolidates and starts again, so the choice is a best fit among the free chunks left by coalescing; without, the block is cut from the grown top |
| Malloc.Heap.MAlloc | shared/malloc.c:3378-3724 | a new 8-aligned block, large enough, disjoint from all live blocks, no byte of which changes. A fastbin hit, and only it, gives the head of that fastbin and moves nothing else; the last remainder is given when it is the newest unsorted chunk, has room and nothing fits exactly; else the smallest free chunk that fits; top only when none fits. The free chunks meant are those before the call, or, for a large request and for one that bins and top cannot serve, those that coalescing the fastbins leaves. What a small request leaves of the chunk it cut is the one unsorted chunk and the new last remainder; otherwise the last remainder is as before. 0 only for an impossible size or at the heap limit |
| Malloc.Heap.TwoSmall | shared/malloc.c:3489-3515 | of two small requests the second is answered right behind the first, if the first cut a chunk with room for both and no free chunk fits the second exactly |
| HeapSteps.SameGaps | shared/malloc.c:3899-3994 | there is one set of free chunks that coalescing can leave between given live blocks, so the choice after a consolidation is determined by the heap before the call |
| Malloc.Heap.AllocateFrom | shared/malloc.c:3419-3724 | the same for a request size: first the fastbin, then the small bin, then the search |
| Malloc.Heap.AllocateLarge | shared/malloc.c:3470-3724 | the same for a large request, after consolidating the fastbins |
| Malloc.Heap.SearchAndTop | shared/malloc.c:3485-3724 | the same for the search from the unsorted bin on |
| Malloc.Heap.FreeFast | shared/malloc.c:3755-3775 | a small block goes on top of the stack of its size and stops being live |
| Malloc.Heap.MFree | shared/malloc.c:3730-3882 | exactly this block stops being live; no byte of another block changes; the break does not move; a block of at most 72 bytes becomes the head of its fastbin; a larger one is joined with its free neighbours, and all fastbins are emptied exactly when the run has at least 128K, else they are as before; free(0) does nothing |
| Malloc.Heap.Write | shared/malloc.c:1968-1969 | a client may write anywhere in its own block |
| Realloc.ReAlloc | shared/malloc.c:4000-4190 | the block keeps its contents up to the smaller of the two sizes, has the new size, and no other block or byte changes; it stays in place whenever it, or it with a free chunk or top behind it, has room; 0 only for an impossible size or at the heap limit, with everything as before |
| Realloc.ResizeInPlace | shared/malloc.c:4051-4156 | says whether there was room in place, and then the block has the new size where it is |
| Realloc.Relocate | shared/malloc.c:4080-4132 | else the contents move to a new block and the old one is released |
| Realloc.CopyWords | shared/malloc.c:4102-4127 | the unrolled copy moves exactly the words asked |
| Realloc.ExpandIntoTop | shared/malloc.c:4060-4067 | a block below top grows into it |
| Realloc.MemAlign | shared/malloc.c:4228-4326 | a block at a multiple of the alignment rounded up to a power of two, large enough, nothing else changed, exactly when the padded size is a 32-bit number; otherwise the block is smaller than asked; no end exactly when the alignment is more than 2^31 |
| Realloc.PlaceAligned | shared/malloc.c:4259-4326 | the same for an alignment that is a power of two of at least 16 |
| Realloc.ReleaseLeader | shared/malloc.c:4285-4306 | the space before the aligned place becomes free and the rest stays the block |
| Realloc.AlignmentFacts | shared/malloc.c:4248-4257 | the doubling gives a power of two not below the alignment, and the alignment itself when it is one |
| Realloc.AlignmentLeast | shared/malloc.c:4248-4257 | no smaller power of two of at least 16 would do |
| Realloc.PowerBounded | shared/malloc.c:4253-4257 | up to 2^31 the doubling stays a 32-bit number |
| Realloc.DoublingNeverEnds | shared/malloc.c:4255 | above 2^31 the doubled word, which wraps to 0, stays below the alignment for ever |
| Realloc.ShortChunk | shared/malloc.c:4269-4272 | when the padded size wraps, the chunk that malloc returns is smaller than the request |
| Realloc.WrappedRequest | shared/malloc.c:4269-4322 | a run from the empty heap in which that happens |
| IndependentAlloc.IAlloc | shared/malloc.c:4452-4570 | n separate blocks of the sizes asked, zeroed if wanted, with their addresses in the array, no other block or byte changed, exactly when the total is a 32-bit number, there is memory and ClearHead is false before the call; a total that wraps gives a chunk smaller than it; ClearHead makes memory that no heap state describes |
| IndependentAlloc.TakeAndDivide | shared/malloc.c:4504-4551 | the aggregate chunk is divided, and its first flag is right exactly when ClearHead was false |
| IndependentAlloc.Divide | shared/malloc.c:4523-4551 | the pieces tile the aggregate chunk and the last one takes the slop |
| IndependentAlloc.ContentsSize | shared/malloc.c:4491-4501 | the sum of the sizes, when it is a 32-bit number |
| IndependentAlloc.FalseFlag | shared/malloc.c:4533-4548 | a binned chunk followed by one whose flag calls it in use fits no heap state |
| IndependentAlloc.ReachClearHead | shared/malloc.c:4533-4548 | a run from the empty heap to a state with ClearHead |
| IndependentAlloc.RuinedHeap | shared/malloc.c:4533-4548 | a run in which the call leaves such memory |
| HeapCheck.CheckMallocState | shared/malloc.c:2755-2864 | do_check_malloc_state, transcribed, returns true in every state of the allocator |
| HeapCheck.MallocedPasses | shared/malloc.c:2694-2745 | every block handed out passes do_check_remalloced_chunk, and do_check_malloced_chunk exactly when its predecessor is in use |
| GuardedMalloc.LengthIsChecked | shared/malloc.c:5618-5631 | the tests of mem_free pass for the length given to mem_alloc and for no other length |
| GuardedMalloc.ZoneHolds | shared/malloc.c:5600-5602 | the words between the guards hold the bytes asked for, and less than a word more |
| GuardedMalloc.GuardsSurvive | shared/malloc.c:5598-5631 | allocator calls and writes of other clients leave the guard words of a block as they are |
| GuardedMalloc.MemAlloc | shared/malloc.c:5598-5615 | a zeroed zone of the asked length between its guard words, or 0 |
| GuardedMalloc.MemFree | shared/malloc.c:5618-5631 | a zone from mem_alloc with its own length passes the tests and is released |
| HashProbe.ProbeCovers | kernel/hash.c:54-81 | the probe sequence visits every slot of a table of 2^k slots within 2^k + 7 steps, whatever the hash |
| HashProbe.OrbitInjective | kernel/hash.c:77-78 | within one period i -> 5i + 1 modulo a power of two visits no slot twice |
| HashProbe.OrbitCovers | kernel/hash.c:77-78 | and therefore all of them |
| HashProbe.PerturbVanishes | kernel/hash.c:79 | after 7 steps the perturbation is used up |
| HashProbe.PerturbShifts | kernel/hash.c:79 | after n steps the lowest 5n bits of the hash are used up |
| HashProbe.ProbeIsOrbit | kernel/hash.c:77-79 | from step 7 on the loop follows that orbit |
| HashTable.WalkStops | kernel/hash.c:54-81 | the probe loop ends exactly when the key is present or a never-used slot is left, and then within size + 7 steps |
| HashTable.Table.Crowd | kernel/hash.c:188-214 | on a table without tombstones, new keys set while the allocator refuses a larger array use every slot, and then the lookup of any absent key walks for ever |
| HashTable.FullTable | kernel/hash.c:188-214 | a run of eight refused sets from a new table to that state |
| HashTable.AbsentAtEmpty | kernel/hash.c:64-66 | a walk that reaches a never-used slot has passed every place the key could be |
| HashTable.GetIs | kernel/hash.c:67-71 | the active slot with an equal key is the one that counts: no key is active twice |
| HashTable.Enter | kernel/hash.c:204-213 | entering an absent key, in a tombstone or a free slot, maps that key and no other and keeps all others reachable |
| HashTable.Overwrite | kernel/hash.c:199-202 | overwriting changes the value of that key only |
| HashTable.Remove | kernel/hash.c:229-233 | a tombstone removes that key only and keeps the others reachable |
| HashTable.Table.Run | kernel/hash.c:188-236 | any run of set and del on an empty table, with any allocations refused, maps each key as the last operation on an equal key says, until every slot is used; with all allocations granted it goes through to the end and keeps the load bound |
| HashTable.RunRefinesMap | kernel/hash.c:188-236 | a sequence of slot arrays, each the map before it with one key changed, ends in the map that replaying the operations gives |
| HashTable.Table.Init | kernel/hash.c:138-147 | an empty table, or none exactly when the allocation is refused |
| HashTable.Table.constructor | kernel/hash.c:138-147 | an empty map in 8 slots |
| HashTable.Table.Initialize | kernel/hash.c:29-47 | an empty table of the new size, or no change when memory is refused |
| HashTable.Table.Lookup | kernel/hash.c:54-81 | the slot of the key, else the first tombstone met, else the free slot that ended the walk; within size + 7 steps |
| HashTable.Table.Copy | kernel/hash.c:88-105 | the new array holds the same map without tombstones |
| HashTable.Table.Update | kernel/hash.c:110-135 | success leaves 3*fill < 2*size and the same map, in a table doubled, halved or kept as the fill demands; failure changes nothing |
| HashTable.Table.IsSet | kernel/hash.c:163-171 | whether the map has the key |
| HashTable.Table.GetOr | kernel/hash.c:174-185 | the mapped value or the default |
| HashTable.Table.Set | kernel/hash.c:188-214 | the key has the value and every other key is as before, also when the call reports failure; success keeps 3*fill < 2*size; a refused allocation leaves the array with one free slot less |
| HashTable.Table.Del | kernel/hash.c:217-236 | the key is gone and every other key is as before; success keeps 3*fill < 2*size |
| PriorityList.NextIsFirstInService | shared/queue.h:5-12 | in every run what leaves next has the highest priority, and among equals was added first |
| PriorityList.RunConserves | shared/queue.h:73-163 | what was added is waiting or was served, each once |
| PriorityList.InsertSorted | shared/queue.h:79-86 | queue_add keeps the list sorted |
| PriorityList.InsertBehind | shared/queue.h:79-82 | a new element that is not above x goes behind x |
| LinkedQueue.InitListHead | shared/queue.h:52-54 | a ring of the head alone |
| LinkedQueue.ListIsEmpty | shared/queue.h:107-110 | true exactly for the empty list |
| LinkedQueue.Scan | shared/queue.h:79-82 | stops at the first element of at least the priority |
| LinkedQueue.QueueAdd | shared/queue.h:73-87 | the ring with the one element inserted before its equals, next and prev inverse everywhere |
| LinkedQueue.QueueDel | shared/queue.h:155-163 | the ring without the one element, whose links are cleared |
| LinkedQueue.QueueOut | shared/queue.h:129-147 | the last element leaves, or NULL from an empty list |
| LinkedQueue.QueueTop | shared/queue.h:209-220 | the last element, without a change |
| LinkedQueue.QueueBottom | shared/queue.h:240-251 | the first element, without a change |
| ProcessManager.Kernel.constructor | kernel/processManager.c:42-98 | the state after the first context switch satisfies the invariant |
| ProcessManager.Kernel.OneList | kernel/processLists.c:4-10 | each process is in exactly the list its status names, once; the elected process is active_PID and in none |
| ProcessManager.Kernel.OneQueue | kernel/message_queue.c:150-153 | a process blocked on a message queue is in the list of that queue only |
| ProcessManager.Kernel.Kinship | kernel/processManager.c:29-40 | a process that is not dying has a live parent that lists it, or process 0; a zombie stays on the list of its living parent; terminated processes have no children |
| ProcessManager.Kernel.TopRuns | kernel/processManager.c:110-133 | no ready process has a higher priority than the running one whenever a kernel call returns |
| ProcessManager.Kernel.MessagesInOrder | kernel/message_queue.c:138-265 | messages written since the queue was created or reset are those read followed by those waiting, in order; the indices agree with the count |
| ProcessManager.Kernel.Wakeup | kernel/processManager.c:168-189 | a process that slept is asleep afterwards exactly when clock <= wake_up_time; all others are as before |
| ProcessManager.Kernel.SleepersLate | kernel/processManager.c:173-180 | collects exactly the sleepers with clock > wake_up_time |
| ProcessManager.Kernel.KillProcesses | kernel/processManager.c:309-333 | frees only dying processes and never the active one |
| ProcessManager.Kernel.StepDown | kernel/processManager.c:113-117 | a process that still runs goes back to the ready list behind its equals |
| ProcessManager.Kernel.ElectProc | kernel/processManager.c:110-133 | the last ready process is elected; -1 exactly when it is the one that ran |
| ProcessManager.Kernel.Scheduling | kernel/processManager.c:152-166 | the caller is never freed, one ready process of top priority runs, who slept sleeps on exactly when clock <= wake_up_time, all else is as before; each call serves one of those before a top-priority process |
| Sleepers.SchedulingMeans | kernel/processManager.c:152-189 | a process asleep before scheduling() is asleep after it exactly when the clock is not past its time, and nobody falls asleep |
| ProcessTable.AllServed | kernel/processManager.c:152-166 | nobody of top priority falls back, and each call of scheduling() brings it one place forward or elects it |
| ProcessManager.Kernel.Step | kernel/processManager.c:110-133 | one event, a clock tick, a resumption or any kernel call, keeps the invariant, and for every process but the target of chprio either scheduling() ran once and served it or it was not overtaken; a parent comes to wait for a terminated child exactly when the event is a kill of a process it waits for; a sleeper goes on sleeping unless its time has passed or it is killed |
| ProcessManager.Kernel.Run | kernel/processManager.c:110-133 | over any sequence of events the invariant holds, without kill no parent waits for a terminated child, and a process of top priority with k ready processes before it, not a target of chprio, is passed over by scheduling() at most k times before it runs; who calls wait_clock(c) is asleep in every later state up to the first one with clock > c, unless killed, and nobody is asleep later than that |
| Sleepers.SleepsUntil | kernel/processManager.c:168-205 | in a run a sleeper that is not killed sleeps as long as the clock is not past its time |
| WaitingParents.ExitOverlooks | kernel/processManager.c:273-306 | exit leaves no parent waiting for a terminated child |
| WaitingParents.KillOverlooks | kernel/processManager.c:447-478 | kill does so exactly when the parent waits for the process killed |
| WaitingParents.ReschedSame | kernel/processManager.c:152-166 | scheduling() neither leaves a parent waiting nor wakes one |
| WaitingParents.BlocksWell | kernel/processManager.c:377-384 | waitpid blocks no caller that has a terminated child to collect |
| ProcessManager.LeftWaiting | kernel/processManager.c:447-478 | a run from the boot state to a parent that waits for a child that was killed |
| ProcessTable.RoundRobin | kernel/processManager.c:110-133 | each call of scheduling() in a run of such steps takes one process from before the one that waits |
| ProcessTable.ServedElse | kernel/processManager.c:223-257 | moving one process behind its new equals leaves the places of all others |
| ProcessManager.Kernel.Tick | kernel/timer.c:61-71 | the clock advances and the scheduler runs |
| ProcessManager.Kernel.WaitClock | kernel/processManager.c:196-205 | the caller sleeps until the given time |
| ProcessManager.Kernel.GetPrio | kernel/processManager.c:207-212 | a number in the signed range that equals the priority modulo 2^32, or -1 for an unknown process |
| ProcessManager.Kernel.ChPrio | kernel/processManager.c:214-263 | refuses exactly an unknown process, a zombie, and a priority of 0 or less, old or new; else changes the one priority, requeues, schedules and returns the old priority; every other process of top priority moves up or runs |
| ProcessManager.Kernel.SetPriority | kernel/processManager.c:223-257 | the process is behind its new equals in the one list it is in |
| ProcessManager.Kernel.FindQueue | kernel/processManager.c:241-251 | finds the one queue the process waits on |
| ProcessManager.Kernel.FreeChildren | kernel/processManager.c:337-355 | every zombie child becomes dying, every other child gets process 0 as parent, nothing else changes |
| ProcessManager.Kernel.EndProcess | kernel/processManager.c:460-470 | a terminating process leaves its list and becomes a zombie if its parent lives, else dying |
| ProcessManager.Kernel.UnblockParent | kernel/processManager.c:286-295 | a parent blocked in waitpid becomes ready |
| ProcessManager.Kernel.Exit | kernel/processManager.c:273-306 | the caller becomes a zombie owing exactly its value, or dying; its children are dealt with and owe nothing; a waiting parent is ready; the scheduler runs |
| ProcessManager.Kernel.Kill | kernel/processManager.c:447-478 | refuses zombies and unknown processes; the process is terminated and owes 0; killing oneself is exit(0) |
| ProcessSteps.ExitMeans | kernel/processManager.c:273-306 | zombie children are to be destroyed, the others get process 0 as parent, a blocked parent is ready, no other record changes |
| ProcessSteps.KillMeans | kernel/processManager.c:460-477 | the same, but the parent is not woken and the return value stays |
| ProcessManager.Kernel.KillOther | kernel/processManager.c:460-477 | another process is taken from whatever list it is in and terminated |
| ProcessManager.Kernel.Reap | kernel/processManager.c:386-399 | the value owed by a zombie child is handed out and is owed no longer |
| ProcessSteps.ReapMeans | kernel/processManager.c:386-399 | the zombie is to be destroyed and leaves the list of its parent, no other record changes |
| ProcessManager.Kernel.GetTerminatedChild | kernel/processManager.c:434-444 | the first zombie child, or none |
| ProcessManager.Kernel.WaitPid | kernel/processManager.c:358-400 | -1 without such a child; the value of a zombie child exactly once; else the caller waits |
| ProcessManager.Kernel.ResumeWaitAny | kernel/processManager.c:427-430 | a parent woken in wait_for_child always finds a zombie |
| ProcessManager.Kernel.ResumeWaitPid | kernel/processManager.c:377-399 | a woken parent gets the child it waits for, or waits again |
| ProcessManager.Kernel.WakeWaiter | kernel/message_queue.c:171-184 | the highest-priority waiter, and no other, is made ready |
| ProcessManager.Kernel.UnblockAll | kernel/message_queue.c:83-95 | every waiter of the queue is made ready |
| ProcessManager.Kernel.Write | kernel/message_queue.c:256-259 | the message goes behind all that wait |
| ProcessManager.Kernel.Read | kernel/message_queue.c:166-169 | the oldest message leaves |
| MessageRing.PutContents | kernel/message_queue.c:256-259 | the ring after a write contains the old messages and then the new one |
| MessageRing.TakeContents | kernel/message_queue.c:166-169 | the ring after a read contains all but the oldest |
| ProcessManager.Kernel.PSend | kernel/message_queue.c:215-265 | writes unless the queue is full, that is when as many messages wait as it has places, and then waits; a first message makes the last waiter ready |
| ProcessManager.Kernel.ResumeSend | kernel/message_queue.c:250-264 | a woken sender gives up after a reset, counting it off, or a deletion, waits again while the queue is full, else writes |
| ProcessManager.Kernel.PReceive | kernel/message_queue.c:138-187 | returns the oldest message; the first room in a full queue makes the last waiter ready; waits on an empty queue only |
| ProcessManager.Kernel.ResumeReceive | kernel/message_queue.c:158-187 | a woken receiver gives up after a reset, counting it off, or a deletion, or on an empty queue, else reads the oldest message |
| ProcessManager.Kernel.PReset | kernel/message_queue.c:190-212 | the queue is empty, its history starts again and as many resets are due as processes waited; all of them are ready |
| ProcessManager.Kernel.PDelete | kernel/message_queue.c:113-128 | the queue is gone and all its waiters are ready |
| ProcessManager.Kernel.PCreate | kernel/message_queue.c:45-81 | the lowest free number, with an empty ring of exactly the places asked and nobody waiting, or -1 |
| ProcessManager.Kernel.FillQueue | kernel/message_queue.c:215-265 | a fresh queue of n places takes exactly n sends, in order, and the next one waits |
| ProcessManager.Kernel.GetNewPid | kernel/processManager.c:12-19 | the lowest free number, or -1 when all are taken |
| ProcessManager.Kernel.Start | kernel/processManager.c:42-98 | a new ready process with the lowest free number, child of the caller; the scheduler runs only if its priority is higher |
| ProcessManager.BirthFacts | kernel/processManager.c:42-98 | the new record is ready, with its priority and the caller as parent, which lists it; no other record changes |
| Philosophers.RunKeeps | user/tests/test20/philosophe.c:57-100 | in every run a fork is in use exactly when one of its two neighbours owns it, never both, and each grant not yet consumed is one token |
| Philosophers.NeighboursApart | user/tests/test20/philosophe.c:57-100 | neighbours never eat at the same time |
| Philosophers.BlockedHasEater | user/tests/test20/philosophe.c:69-74 | a blocked philosopher misses a fork owned by a neighbour that is not blocked |
| Philosophers.SomeoneCanStep | user/tests/test20/philosophe.c:57-100 | no deadlock: while somebody is not done, somebody can go on |
| Philosophers.EverybodyEats | user/tests/test20/philosophe.c:113-118 | every run is finite, and one that cannot go on has fed everybody six times |
| Philosophers.TakeKeeps | user/tests/test20/philosophe.c:63-78 | taking forks keeps the invariant |
| Philosophers.PutKeeps | user/tests/test20/philosophe.c:80-100 | putting them down, with hand-over to both neighbours, keeps it, also in a ring of three |
| Philosophers.Dinner.constructor | user/tests/test20/test20.c:18-25 | nobody holds a fork, nobody is blocked, no token |
| Philosophers.Dinner.Test | user/tests/test20/philosophe.c:57-61 | whether both forks are free |
| Philosophers.Dinner.TakeForks | user/tests/test20/philosophe.c:63-78 | the critical section does what the state machine says |
| Philosophers.Dinner.WaitToken | user/tests/test20/philosophe.c:77 | consumes the one token |
| Philosophers.Dinner.PutForks | user/tests/test20/philosophe.c:80-100 | the critical section does what the state machine says |
| GdbSerial.Hex2Bin | kernel/gdb_serial.c:55-66 | the bytes the digits stand for, or -1 if a character is not a digit; nothing past them is written |
| GdbSerial.HexMeans | kernel/gdb_serial.c:47-53 | the sixteen digits in either case, and nothing else |
| GdbSerial.UnhexHexAll | kernel/gdb_serial.c:55-66 | hex2bin undoes hexification |
| GdbSerial.ReadBody | kernel/gdb_serial.c:84-98 | reads up to the first # that is not escaped, keeping the sum |
| GdbSerial.ExpandEncode | kernel/gdb_serial.c:150-207 | expanding the run lengths of a fragment, hexified or not, gives its characters, whatever follows; a text must have no star in it |
| GdbSerial.ExpandPayload | kernel/gdb_serial.c:147-207 | so does expanding a whole packet of fragments |
| GdbSerial.RoundTrip | kernel/gdb_serial.c:133-222 | expanding and unhexing a hexified fragment gives back every byte string |
| GdbSerial.EncodeClean | kernel/gdb_serial.c:182-197 | a hexified fragment is sent in printable characters other than # and } |
| GdbSerial.CountSent | kernel/gdb_serial.c:160-194 | #, $ or } is sent for a fragment exactly when its text has it or a run in it leaves that count after its full pieces |
| GdbSerial.DollarSent | kernel/gdb_serial.c:160-194 | a hexified fragment has a $ inside exactly when a run of bytes with two equal digits leaves four bytes |
| GdbSerial.FourZeros | kernel/gdb_serial.c:160-194 | four zero bytes are sent as 0, star, dollar |
| GdbSerial.PayloadClean | kernel/gdb_serial.c:147-214 | a packet has no # and no } inside exactly when every text in it has none and no run that leaves such a count |
| GdbSerial.SendPiece | kernel/gdb_serial.c:156-207 | one turn of the loop sends a run of at most 98 equal characters, or one byte |
| GdbSerial.SendFragment | kernel/gdb_serial.c:147-207 | the loop over one fragment sends its encoding and keeps the sum |
| GdbSerial.SendFrame | kernel/gdb_serial.c:138-216 | one pass sends the start mark, the payload of any list of fragments, the end mark and the checksum |
| GdbSerial.KnownPackets | kernel/gdb_serial.c:138-216 | the frame of OK, and the run length of four zeros |
| GdbSerial.PutPacket | kernel/gdb_serial.c:137-221 | the frame is repeated up to and including the first acknowledgement |
| GdbSerial.ReadFrame | kernel/gdb_serial.c:74-107 | a packet shorter than the buffer, after any other characters, is received as it was sent, and found good exactly when the two digits behind it are the sum of its characters modulo 256 |
| GdbSerial.GetPacket | kernel/gdb_serial.c:69-125 | after any number of damaged packets, each refused, the first whole one is acknowledged, its sequence number answered and removed, and the buffer holds its text |
| GdbSerial.StripId | kernel/gdb_serial.c:111-121 | the sequence number is answered when the third character is a colon, and removed when the text is that long |
| GdbSerial.Carry | kernel/gdb_serial.c:69-222 | any bytes, sent hexified through a frame between any other characters, arrive as those bytes when the packet fits the buffer |
| Paging.Machine.Lookup | kernel/gdb_serial_support.c:89-121 | length 0 exactly for an unmapped address; else the whole rest of the page is where the address is |
| Paging.Machine.CopyIn | kernel/gdb_serial_support.c:142-162 | fails exactly when an address of the range is unmapped; else each byte is the one at its own translation |
| Paging.Machine.CopyOut | kernel/gdb_serial_support.c:164-184 | fails exactly when an address of the range is unmapped; writes byte by byte through the translation at the start |
| Paging.ThroughTable | kernel/gdb_serial_support.c:103-112 | a directory entry with bit 0 set and bit 7 clear, whatever its other flags, leads through the table to the page of the table entry |
| Paging.ThroughLarge | kernel/gdb_serial_support.c:113-119 | one with bits 0 and 7 set is a 4M page: frame plus offset |
| Paging.NoTable | kernel/gdb_serial_support.c:102-103 | one with bit 0 clear maps nothing |
| Paging.NoPaging | kernel/gdb_serial_support.c:95-100 | without paging an address is itself |
| Paging.WalkExample | kernel/gdb_serial_support.c:90-121 | a table that the processor has marked as used, and a large page, in numbers |
| Paging.WrittenReadsBack | kernel/gdb_serial_support.c:164-184 | what was copied out reads back at its translated address |
| Paging.WrittenApart | kernel/gdb_serial_support.c:164-184 | a copy that stays off the table entries in use changes no translation of its range |
| Paging.Machine.FillPgdir | kernel/boot/early_mm.c:145-160 | the first entries refer to consecutive tables, the others are 0, nothing else is written |
| Paging.Machine.MapRegion | kernel/boot/early_mm.c:172-188 | exactly the entries of the region map each page to itself with the flags; all other entries and memory are unchanged |
| Paging.Machine.MapKernel | kernel/boot/early_mm.c:193-223 | with paging on, translation is the identity on exactly the pages of the regions and undefined elsewhere, also when the processor has marked entries as accessed or written |
| Paging.NullUnmapped | kernel/boot/early_mm.c:206-207 | no address of the first page is mapped |
| Division.LeadingRange | shared/div64.c:36-37 | a divisor of more than 32 bits shifted right keeps exactly its 32 leading bits |
| Division.Estimate | shared/div64.c:36-39 | the quotient by the leading bits plus one is at most the true one and at most two less |
| Division.DivLong | shared/div64.c:34-49 | long division by a large divisor; traps exactly when its 32 leading bits are all ones |
| Division.Correct | shared/div64.c:41-48 | the correction loop runs at most twice |
| Division.DoDiv64 | shared/div64.c:28-64 | q*y + rem == x and rem < y for every x and y >= 1, with a trap exactly for the divisors whose 32 leading bits of more than 32 are all ones; (0, x) for y == 0 |
| Division.GreatestDivisorTraps | shared/div64.c:39 | the greatest 64-bit divisor is such a divisor |
| Division.Div64 | user/tests/lib/math.c:109-139 | q*y + rem == x and rem < y for every x and y >= 1; (0, x) for y == 0 |
| Division.Descend | user/tests/lib/math.c:126-138 | the second loop goes down to the divisor itself |
| Division.Agree | shared/div64.c:28-64 | there is one quotient and remainder |
| Division.SameAnswer | user/tests/lib/math.c:109-139 | the two divisions agree wherever the first does not trap |
| StringSearch.MemCmp | shared/string.c:83-95 | 0 exactly for equal blocks, else the difference of the first two bytes that differ |
| StringSearch.SkipIsSafe | shared/string.c:239-245 | the skips of two never jump over an occurrence |
| StringSearch.MemMem | shared/string.c:228-266 | the first occurrence of a non-empty needle, or none exactly when there is none |
| Digits.NumeralValue | shared/doprnt.c:550-554 | the digits produced stand for the number |
| Digits.NumeralLower | shared/doprnt.c:538-554 | digits above 9 are small letters |
| NumberPrinter.ParseSpec | shared/doprnt.c:204-266 | for every text each part of the specification is taken as far as it goes, flags in any order and number; a specification with its flags in one order is read back field by field |
| NumberPrinter.ReadNumber | shared/doprnt.c:239-242 | the longest run of digits, as a number |
| NumberPrinter.FillBuffer | shared/doprnt.c:550-554 | the digits, most significant first, at the end of the buffer, which is large enough |
| NumberPrinter.PrintNum | shared/doprnt.c:534-599 | sign, prefix, precision zeros, padding and digits in the order of the flags |
| NumberPrinter.PrintedParts | shared/doprnt.c:541-596 | blanks before the sign, or behind the digits with a minus flag, none with zero padding; 0x or 0 as prefix; as many zeros as the precision asks for |
| NumberPrinter.PrintedLength | shared/doprnt.c:550-596 | the output is as long as the width, or as sign, prefix and the larger of digits and precision if that is more |
| Digits.DigitsMean | shared/strtoul.c:41-52 | the digits and the letters in either case, and nothing else |
| NumberParser.StrToUl | shared/strtoul.c:21-56 | the value of the longest run of digits modulo 2^32 and its end, after spaces and an optional 0x |
| NumberParser.StrToL | shared/strtol.c:21-62 | the same with a minus sign, as a signed word |
| NumberParser.UnsignedRoundTrip | shared/strtoul.c:21-56 | strtoul on any %u, %x or %o output, with any width, flags and precision, returns the number and stops behind its last digit |
| NumberParser.GuessedBase | shared/strtoul.c:33-39 | with base 0 it does so for unpadded %u, %#x and %#o |
| NumberParser.SignedRoundTrip | shared/strtol.c:21-62 | strtol on any %d output without a printed plus sign returns the number, above the least one |
| NumberParser.PlusIsNotRead | shared/strtol.c:28-31 | with a printed plus sign it always returns 0 and stops at the sign |

## Left out

- Malloc: calloc, valloc, pvalloc and the other thin interfaces over the allocating routines.
- Malloc: mmap, locking, statistics, debugging branches and other operating systems; trimming is left out, because `kernel/mem.c:16-23` refuses negative requests for heaps below 2^31; non-contiguous memory cannot occur.
- HeapCheck.CheckMallocState: says that the check passes; nothing of heaps that are no state of the allocator.
- ProcessManager: the process records are values in a map from process numbers, so pointers to freed records, stacks, contexts and names are not modelled; numbers identify processes.
- ProcessManager: the list of children of process 0 is not kept, because the source never unlinks finished processes from it.
- ProcessManager.Kernel.Resume: its contract keeps the invariant and the places in the ready list; each kind of resumption has its own member for the rest.
- ProcessManager.Kernel.Run: an event that cannot happen in the present state is ignored; the target of chprio is exempt from the promise about waiting, since it goes behind its new equals.
- ProcessManager.Kernel.ResumeReceive: the decrement of `reset_flag` in a deleted queue is a write to freed memory and has no effect here.
- ProcessManager.Kernel.PSend: nothing is claimed about lost wake-ups in the message queues, about which of several mixed waiters should be woken, or about `pcount`.
- ProcessManager.Kernel.PCreate: the second allocation, of the buffer, is taken to succeed.
- ProcessManager.Kernel.Start: the size of the stack is only checked for overflow.
- HashTable: keys and values are not pointers, so a key shared with and changed by the caller is not modelled; hash_destroy and the predefined string and pointer hashes are left out.
- LinkedQueue: elements are links with a priority; the offset arithmetic from a link to its element is not modelled.
- Philosophers: the display of the philosophers' states, and the semaphores of the user library themselves, which are taken as ideal.
- GdbSerial: the commands of the stub; a fragment given without a length is its bytes before the first zero.
- GdbSerial.GetPacket: nothing is promised about packets of 400 characters or more, and for a packet of fewer than two characters it is not said whether two stray characters are sent back, which depends on what an earlier packet left in the buffer.
- GdbSerial.PutPacket: the replies are a finite list; what happens when the line falls silent is not modelled.
- GdbSerial.ExpandEncode: a text with a star in it is not covered; the stub sends none.
- Paging: access rights and the flags of the processor beyond present and large pages.
- Paging.Machine.CopyIn: the destination buffer is not part of the memory it copies from.
- Division: mul64 and the random numbers; the inactive division in the same file.
- NumberPrinter.ParseSpec: the letter l and widths and precisions taken from arguments with a star are not modelled.
- NumberPrinter: %c, %s, %b, %r, %n, %p, and floats; widths and precisions are not limited to words.
- StringSearch: the rest of the string library, whose routines have one loop each.
- Context switching, port input and output, serial line, screen, keyboard, interrupt tables, multiboot, shared memory pages and user-mode glue are hardware or thin layers.
