# Verification of the labs

Dafny models of seven programs, with proofs of what each is for. All results hold for every input, every
run or every schedule, unless a condition is named with them.

`dafny verify dfyconfig.toml` checks everything.

## The programs

**Lock-free hash map** (`LockFreeMap`, `LockFreeSteps`, `LockFreeRuns`, `LockFreeCalls`, `LockFreeExample`). A
sequentially consistent machine: one step is one atomic load, store or compare-and-swap of one thread; a
schedule says who steps, what `malloc` returns and which weak swaps fail spuriously. An unlink uses a `next`
snapshot that may be stale and may write into a node that is unlinked already, so deleted nodes can be linked
again. The invariant stamps nodes in the order of publication: every link leads to a smaller stamp, and every
node of the bucket whose stamp lies between the two ends is deleted. From it: no live node is ever lost, nodes
are conserved, positive answers are exact, a negative answer rules out exactly the nodes published when the
traversal loaded the head, and traversals are wait-free. Negative answers are not linearizable when values
repeat; `NotLinearizable` is a run that shows it, `AbsentExactly` says when the value is absent at return, and
`NegativeExactly` when it is absent at any instant of the call.

**Lock-based hash map** (`LockMap`, `LockMapSteps`, `LockMapRuns`, `LockMapCalls`). The same kind of machine
with a test-and-set lock in each bucket and with `free`: addresses may be handed out again, and a step that
touches an address that is not allocated goes to `Fault`. Every interleaving refines an atomic multiset, each
call is one of its operations, taken at exactly one step inside the critical section, `Fault` is never
reached, and nothing leaks.

**Heap allocator** (`FlatMemory`, `BlockLists`, `ArenaMemory`, `HeapViews`, `HeapSteps`, `HeapCalls`,
`Allocator`). The class `Heap` reads and writes 32-byte headers in a flat memory of bytes. Ghost fields hold
the block list of each arena, the arena that obtained each byte, and how many bytes each arena obtained.
`Sound` says that headers, lists, heads and tails agree, that blocks are ordered and 8-aligned, and that the
blocks of an arena tile exactly the bytes it obtained; `Settled` adds that no two adjacent list neighbours are
both free. Every public call keeps `Settled`, and its contract says what becomes of every allocation and every
byte of it.

**Allocator under concurrency** (`ArenaEdits`, `HeapMachine`, `HeapMachineSteps`, `HeapMachineInv`,
`HeapMachineRuns`, `HeapMachineCalls`, `HeapMachineProgress`, `HeapMachineResults`, `HeapMachineMoves`,
`HeapMachineRefines`, `HeapMachineAnswers`). Any number of threads call `malloc`, `free` and `realloc` on one
memory of bytes. Each store to a header, head or tail is a step of its own, and so are taking and releasing a
lock, each look of the search at a block, each byte that a move copies, and the two halves of `sbrk`, reading
the break and writing it. While a list is being changed the invariant keeps the list as it was, the stores
that are still to be made, and the list they lead to. The arena field of a block is read without a lock, as in
the program. An arena that nobody holds is sound, allocations in use keep their place and their bytes, a call
takes the `sbrk` lock exactly once or not at all, and `realloc` preserves contents under every schedule. Each
call does to the list of its arena exactly what the sequential algorithm does to it (`CallRefines`), so a null
answer means that nothing fitted and that the system refused, and between calls the heap is settled.
`WithoutLock` shows that without the `sbrk` lock two arenas would own the same bytes.

**Dead code elimination** (`Ir`, `DceRewrites`, `DceSimulation`, `DceBlocks`, `DcePreserve`, `DceMeasure`,
`DceStores`, `DcePass`, `DceLoops`, `DceSlots`, `DceContexts`, `DceSafety`, `DceFixpoint`). A phi-free IR with
registers, stack slots, calls, branches and a block-step semantics. Two functions are `Equivalent` if, under
every environment that cannot guess stack addresses, whatever can be seen of one after some number of blocks
(its calls, and at the end its result and the memory outside its slots) can be seen of the other. The pass is
a class that changes the function in place; it terminates, preserves behaviour, and ends at a common fixpoint
of its three stages. The walk over a slot treats the end of a block as the end of the slot's life, so the pass
miscompiles a function in which a selected slot carries a value around a loop; `LoopCarriedCounterexample` is
one. The side condition `Sweepable` excludes these: in no function that the pass can derive does a slot that
it selects lie in a block that can be entered again, where it is loaded first and stored last. `LoopSafe` is a
condition on the text that suffices, and `SweepExactly` says exactly which accesses may be swept in every
function around them.

**In-memory file system** (`Text`, `LogCodec`, `Inodes`, `FileOps`, `FileAnswers`, `Statistics`, `MemFs`,
`Replay`). The class `FileSystem` holds the inode table and the log text. Requests, path resolution, the log
printer, the scanner with its line buffer, and recovery are modelled, and recovery is proved to rebuild the
tree from the log of any run, or from any whole records at its start. The replay of a record of any length is
followed as the program does it: a record longer than the line is cut by the line buffer, a byte with one
digit left is decoded from that digit, and where the program would overrun a buffer or use a byte that was
never set the outcome is `Wild`. Conditions, each with the exact statement of where it matters: a record is
read back if and only if it is `Readable` (`ReadBackExactly`), which admits every write of up to 2041 bytes to
a short path (`BoundReached`); a write of 2042 bytes to "/f" comes back with a wrong last byte
(`LastByteLost`); decoding stays inside the data buffer if and only if the write has at most 2048 bytes
(`DataInsideExactly`); and a write is determined by its request if and only if it starts at or before the end
of its file (`DeterminedExactly`). Empty writes are lost from the log, which is harmless (`EmptyWrite`).

**Memory-safety runtime** (`MemorySafety`). The address check that looks at two neighbours in an ordered index
accepts exactly what a scan of all blocks accepts. That an accepted access lies in one live block, or touches
none, holds for accesses of up to 17 bytes and for no longer ones (`SafeExactly`).

**External sort** (`StringOrder`, `ExternalSort`). Runs, run files read back through a 1024-byte buffer, and
the merge through a priority queue give the unique sorted permutation of the input, whatever the limit.

`Options`, `Bytes` and `Buckets` hold what several models share.

## Model

| member | source | states |
|---|---|---|
| LockFreeSteps.StepKeepsInv | task04-concurrency/src/lockfreehashmap.c:76-137 | every step of every thread keeps the stamp invariant and accesses allocated nodes only; marks, values and stamps persist |
| LockFreeSteps.InsertKeepsInv | task04-concurrency/src/lockfreehashmap.c:86-89 | the load, link and swap steps of an insert, spurious failures included, keep the invariant; what the call achieves is stated by `LockFreeCalls.CallEnds` |
| LockFreeSteps.RemoveKeepsInv | task04-concurrency/src/lockfreehashmap.c:103-116 | the load, mark and unlink steps of a remove keep the invariant |
| LockFreeSteps.LookupKeepsInv | task04-concurrency/src/lockfreehashmap.c:128-134 | the traversal steps of a lookup keep the invariant |
| LockFreeSteps.UnlinkWrite | task04-concurrency/src/lockfreehashmap.c:110 | an unlink with a stale successor, through a link that may lie in an unlinked node, skips deleted nodes only |
| LockFreeSteps.PublishWrite | task04-concurrency/src/lockfreehashmap.c:87-89 | a head swap that finds the head it linked to publishes the node with the next stamp and keeps the invariant |
| LockFreeRuns.LiveNodesReachable | task04-concurrency/src/lockfreehashmap.c:76-119 | in every interleaving, a published node that is not marked deleted can be reached from its bucket head |
| LockFreeRuns.LiveStep | task04-concurrency/src/lockfreehashmap.c:86-112 | a head swap adds exactly its node to the live ones, a mark takes exactly one node of the value sought, no other step changes them |
| LockFreeRuns.Conservation | task04-concurrency/src/lockfreehashmap.c:86-112 | at every point of a run, the live nodes of a value number its publications less its successful marks |
| LockFreeRuns.ClaimedOnce | task04-concurrency/src/lockfreehashmap.c:108-111 | no node is claimed by two removes |
| LockFreeRuns.LookupFound | task04-concurrency/src/lockfreehashmap.c:129-131 | when a lookup answers 0, the value is in the multiset at that instant |
| LockFreeRuns.RemoveFound | task04-concurrency/src/lockfreehashmap.c:107-111 | a remove that answers 0 claimed one live node of the value inside the same call |
| LockFreeRuns.NothingFound | task04-concurrency/src/lockfreehashmap.c:104-136 | when a lookup or remove answers 1, every node of the value published when its traversal loaded the head is deleted |
| LockFreeRuns.NewlyPublished | task04-concurrency/src/lockfreehashmap.c:86-89 | a node that is live later but was not published before was published by a step in between |
| LockFreeRuns.AbsentExactly | task04-concurrency/src/lockfreehashmap.c:104-136 | at a negative return the value is absent if and only if every node of it published since the head load is deleted again |
| LockFreeRuns.NegativeExactly | task04-concurrency/src/lockfreehashmap.c:104-136 | a negative answer can be given an instant inside its call if and only if every node of the value published since the head load is deleted at return, or one was published while the value was absent |
| LockFreeRuns.OwnProgress | task04-concurrency/src/lockfreehashmap.c:105-116 | each step of a traversal lowers its stamp or its phase, whatever others do |
| LockFreeRuns.TraversalEnds | task04-concurrency/src/lockfreehashmap.c:103-134 | under any interference a traversal takes at most two own steps for each node published when it loaded the head, and one more |
| LockFreeCalls.CallEnds | task04-concurrency/src/lockfreehashmap.c:76-137 | in every run, a call that returns has done what it is for: an insert that got a node has published it, with its value; a remove answers 0 exactly if it claimed one node of its value, once, and 1 otherwise; a lookup answers 0 or 1; only without buckets, or for an insert without memory, does a call fail, at once and with no change |
| LockFreeCalls.AnswerOne | task04-concurrency/src/lockfreehashmap.c:76-137 | every answer is 0 or 1, and an insert answers 1 only at its first step, without buckets or without memory |
| LockFreeCalls.SwapSucceeds | task04-concurrency/src/lockfreehashmap.c:86-89 | the swap of an insert publishes its node unless it fails spuriously or another step has changed the head since it was read: inserts are lock-free |
| LockFreeCalls.UnlinkTakesOut | task04-concurrency/src/lockfreehashmap.c:110 | an unlink through a link that still leads to the node takes it out of the list |
| LockFreeExample.NotLinearizable | task04-concurrency/src/lockfreehashmap.c:123-137 | a run in which a lookup answers 1 although the value is present at every instant of the call |
| LockMap.InitialInv | task04-concurrency/src/lockhashmap.c:25-55 | a new map, with free locks and empty lists, satisfies the invariant |
| LockMapSteps.StepKeepsInv | task04-concurrency/src/lockhashmap.c:84-145 | every step of every thread keeps lists, locks, ownership and snapshots right, even when freed addresses are reused |
| LockMapSteps.ExclusiveStep | task04-concurrency/src/cspinlock.c:11-28 | test-and-set and clear keep a bucket locked exactly while one thread is inside |
| LockMapSteps.UnlinkGentle | task04-concurrency/src/lockhashmap.c:112-116 | the unlinking store, through the head or a node's link, takes exactly that node out and disturbs no other bucket and no other thread's node |
| LockMapRuns.StepMatches | task04-concurrency/src/lockhashmap.c:93-144 | a step changes the number of nodes of a value exactly by its effect, and what a call concludes is true at that instant |
| LockMapRuns.Refinement | task04-concurrency/src/lockhashmap.c:84-145 | every interleaving is a run of an atomic multiset, and the lists hold exactly that multiset |
| LockMapRuns.CallAnswers | task04-concurrency/src/lockhashmap.c:84-145 | each single step of a call has an effect exactly when it is the one that decides its answer, and the answer is that of the effect |
| LockMapCalls.CallLinearized | task04-concurrency/src/lockhashmap.c:84-145 | in every run, a call that returns has taken effect at exactly one step, taken by its thread inside the critical section, with the effect and the answer that the atomic multiset has there; the only other case is an insert whose first step gets no memory, which has no effect and answers 1 |
| LockMapCalls.InsertSucceeds | task04-concurrency/src/lockhashmap.c:84-101 | an insert whose first step is offered a free address adds its value, at exactly one step, and answers 0 |
| LockMapCalls.TriesLock | task04-concurrency/src/cspinlock.c:11-28 | a thread that tries a lock gets it if and only if nobody holds it, and changes nothing otherwise |
| LockMapCalls.NoDeadlock | task04-concurrency/src/lockhashmap.c:84-145 | while a call is under way, some thread can take a step that moves it |
| LockMapRuns.OthersUntouched | task04-concurrency/src/lockhashmap.c:84-145 | a step of one thread leaves the progress of every other call as it is |
| LockMapRuns.Safety | task04-concurrency/src/lockhashmap.c:103-126 | under every schedule no thread touches a node that is not allocated, and at most one thread is inside each bucket |
| LockMapRuns.HolderProgress | task04-concurrency/src/lockhashmap.c:108-144 | each step of the holder of a lock brings it closer to releasing it; it never waits |
| LockMapCalls.SectionEnds | task04-concurrency/src/lockhashmap.c:108-144 | in every run, whoever takes a lock over a list gives it back with, at the latest, its own step number twice the length of the list plus four |
| LockMapRuns.ListIsTheHolders | task04-concurrency/src/lockhashmap.c:93-144 | while a thread is inside, no other step changes its list or its lock |
| LockMapRuns.NothingLeaks | task04-concurrency/src/lockhashmap.c:84-126 | when all calls have returned, the allocated nodes are exactly those in the lists |
| FlatMemory.HeaderRoundTrip | task05-memory/src/allocator.c:18-24 | a header stored in memory is loaded back unchanged |
| BlockLists.TotalConserved | task05-memory/src/allocator.c:86-121 | splitting, merging and marking conserve header and payload bytes |
| BlockLists.SplitCovers | task05-memory/src/allocator.c:86-107 | a split covers exactly the bytes the block covered |
| BlockLists.JoinCovers | task05-memory/src/allocator.c:110-121 | a merge covers exactly the bytes the two blocks covered |
| BlockLists.TakeCoalesced | task05-memory/src/allocator.c:174-176 | taking a free block, split or whole, leaves no two adjacent free neighbours |
| BlockLists.ResizeCoalesced | task05-memory/src/allocator.c:240-243 | growing over the next block and cutting to size leaves no two adjacent free neighbours |
| BlockLists.FreeCoalesced | task05-memory/src/allocator.c:124-130 | marking a block free and merging it leaves no two adjacent free neighbours |
| BlockLists.CutCoalesced | task05-memory/src/allocator.c:166-167 | splitting the reserve off a new block leaves no two adjacent free neighbours |
| ArenaMemory.SplitListed | task05-memory/src/allocator.c:91-106 | the header writes of a split give the headers of the split list, and change header bytes only |
| ArenaMemory.JoinListed | task05-memory/src/allocator.c:111-120 | the header writes of a merge give the headers of the merged list, and change header bytes only |
| ArenaMemory.AppendListed | task05-memory/src/allocator.c:151-164 | the header writes of an append give the headers of the longer list, and change header bytes only |
| HeapViews.LiveDisjoint | task05-memory/src/allocator.c:65-72 | live payloads are 8-aligned, lie below the break and never overlap |
| HeapViews.ArenasDisjoint | task05-memory/src/allocator.c:133-169 | blocks of different arenas never overlap |
| HeapViews.ArenaField | task05-memory/src/allocator.c:219-225 | in a sound heap, the `arena` field of a live block names the arena whose list holds it |
| HeapViews.AddRegionSound | task05-memory/src/allocator.c:145-164 | a region above the break becomes the last block of one arena, and all arenas stay sound |
| HeapSteps.HeaderChange | task05-memory/src/allocator.c:86-121 | a change of one list by header writes keeps the whole heap sound and every other allocation and its bytes |
| HeapSteps.PayloadWrite | task05-memory/src/allocator.c:70-72 | whatever a user writes into a live payload, the heap stays settled and other allocations keep their bytes |
| Allocator.OverflowTest | task05-memory/src/allocator.c:200-203 | the multiplication overflow test of `calloc` is exact |
| Allocator.Heap.FirstHit | task05-memory/src/allocator.c:75-82 | the walk over the headers finds the first free block that fits, and null exactly if there is none |
| Allocator.Heap.SplitBlock | task05-memory/src/allocator.c:86-107 | the list is split when a header and 8 bytes remain, the payload kept is unchanged, all other allocations are untouched |
| Allocator.Heap.CoalesceWithNext | task05-memory/src/allocator.c:110-121 | the block absorbs its successor exactly if that is free and adjacent; its payload and all other allocations are untouched |
| Allocator.Heap.MergeBlocks | task05-memory/src/allocator.c:124-130 | merging a free block with its neighbours touches no allocation |
| Allocator.Heap.Sbrk | task05-memory/src/allocator.c:145 | a granted region starts at or above every earlier break |
| Allocator.Heap.ExtendArenaHeap | task05-memory/src/allocator.c:133-169 | null exactly if the region with header, request and reserve is refused; otherwise a fresh allocation, with the reserve as a free block behind it |
| Allocator.Heap.ArenaMalloc | task05-memory/src/allocator.c:172-181 | a block that fits is always used and the heap then does not grow; null exactly if none fits and the system refuses |
| Allocator.Heap.ArenaFree | task05-memory/src/allocator.c:214-217 | the allocation is gone, its block is merged, every other allocation is as it was |
| Allocator.Heap.ArenaRealloc | task05-memory/src/allocator.c:233-253 | in place exactly if the block and its free successor suffice; contents preserved; null only when nothing fits and the system refuses, and then the allocation stays |
| Allocator.Heap.GetThreadArena | task05-memory/src/allocator.c:57-62 | arenas are assigned round robin, and a thread keeps its arena |
| Allocator.Heap.constructor | task05-memory/src/allocator.c:38-54 | the initial heap, on memory with arbitrary contents, is settled and has no allocation |
| Allocator.Heap.Malloc | task05-memory/src/allocator.c:184-196 | null leaves everything unchanged; otherwise a fresh 8-aligned block of at least the rounded size and less than 40 bytes more, all else untouched |
| Allocator.Heap.Calloc | task05-memory/src/allocator.c:199-211 | as `malloc` of the product, with all requested bytes zero; null if the product overflows |
| Allocator.Heap.Free | task05-memory/src/allocator.c:220-230 | the allocation is gone, its room can be allocated again, all else is untouched; null is ignored |
| Allocator.Heap.Realloc | task05-memory/src/allocator.c:256-275 | size 0 frees, null allocates; otherwise the first bytes, as far as old and new size reach, are preserved and all other allocations are untouched, or on failure the old allocation is preserved |
| Allocator.Heap.Write | task05-memory/src/allocator.c:70-72 | a user's write changes one byte and no other allocation |
| ArenaEdits.SplitPlanned | task05-memory/src/allocator.c:86-107 | the single stores of a split, started on a complete list, lead to the split list and touch no other allocation |
| ArenaEdits.JoinPlanned | task05-memory/src/allocator.c:110-121 | the single stores of a merge lead to the merged list and touch no other allocation |
| ArenaEdits.FreedPlanned | task05-memory/src/allocator.c:175-176 | the store that marks a block leads to the list with that block marked |
| ArenaEdits.AppendPlanned | task05-memory/src/allocator.c:150-164 | the single stores of an append, into a region above the break, lead to the longer list |
| ArenaEdits.StoreAdvances | task05-memory/src/allocator.c:86-121 | each store brings an arena closer to the list planned, and all headers of the old list go on naming the arena |
| ArenaEdits.StoreConfined | task05-memory/src/allocator.c:86-121 | a store changes bytes of one header of the planned list only, all owned by the arena |
| HeapMachineInv.StepKeepsInv | task05-memory/src/allocator.c:75-275 | every atomic step of every thread, and every write of a client to a live allocation, keeps the invariant of the shared heap |
| HeapMachineRuns.Safety | task05-memory/src/allocator.c:133-275 | from the unused heap, under every schedule and at every point: no two threads hold the `sbrk` lock or the same arena lock, every arena that nobody holds is a sound list over its own bytes, and when none is held the whole heap is sound |
| HeapMachineRuns.ArenaFieldAlways | task05-memory/src/allocator.c:224-225 | in every state, also between two stores of other threads, the header of each allocation in use names its arena, so the unlocked read leads to the right lock |
| HeapMachineRuns.AllocationsApart | task05-memory/src/allocator.c:65-72 | in every state, allocations in use in any arenas are 8-aligned, lie below the break and do not overlap |
| HeapMachineRuns.HolderWrites | task05-memory/src/allocator.c:86-130 | a thread writes a byte only while it holds the lock of the arena that owns it, and only in a header of its list or as the copy of a move; a client writes only to a live allocation |
| HeapMachineRuns.InUseKept | task05-memory/src/allocator.c:86-130 | a byte of an allocation in use changes only when its client writes it, or when the one call that has it in hands copies into it |
| HeapMachineRuns.AllocationKept | task05-memory/src/allocator.c:184-275 | in every run, a live allocation that its client does not pass to `free` or `realloc` stays live, where it is, with its size |
| HeapMachineRuns.ByteKept | task05-memory/src/allocator.c:184-275 | in every run, a byte of such an allocation keeps its value until a client writes it |
| HeapMachineRuns.RegionFresh | task05-memory/src/allocator.c:145 | an arena obtains new bytes only when the holder of the `sbrk` lock writes the break, and they lie above it and were nobody's |
| HeapMachineRuns.RegionsStay | task05-memory/src/allocator.c:133-169 | in every run, the bytes that an arena obtained stay its own |
| HeapMachineRuns.WithoutLock | task05-memory/src/allocator.c:136-146 | two threads that had both read the break before either wrote it would give the same bytes to two arenas; the lock excludes it |
| HeapMachineCalls.ExactlyOnce | task05-memory/src/allocator.c:136-146 | in every run, a call that returns has asked for the `sbrk` lock once at most, and has taken and released it exactly as often, on the trylock and on the contended path |
| HeapMachineCalls.InCallTally | task05-memory/src/allocator.c:136-146 | at every point of a call, where it stands tells how often it has taken and released the lock; it asks for the reserve if it waited for the lock, and only after contention |
| HeapMachineProgress.NoDeadlock | task05-memory/src/allocator.c:136-193 | while a call is under way, some thread can take a step, and every step of that thread changes something |
| HeapMachineProgress.ArenaIsLeft | task05-memory/src/allocator.c:75-253 | in every run, a thread leaves its arena after at most as many own unblocked steps as its list has blocks, plus the bytes a move asks for, plus 30: search, stores, copy and `sbrk` all counted |
| HeapMachineResults.CallReturns | task05-memory/src/allocator.c:184-275 | in every run, a call hands back null or an allocation with room for what was asked that is nobody else's; a failing `realloc` hands back its block, `free` nothing |
| HeapMachineAnswers.CallRefines | task05-memory/src/allocator.c:75-253 | in every run, a call that returns has turned the list that it found when it got its lock into the one that the sequential algorithm makes of it: first fit, split, extension with reserve, growing in place, copying, freeing and merging; it answers null only if no block of that list fits and the system, at a step of the call at which it held the `sbrk` lock, denied the region, left the break unaligned, or had no room for header, request and reserve |
| HeapMachineRefines.WorkCourse | task05-memory/src/allocator.c:75-253 | every single step of a call, header stores included, keeps its list on the way from the one it found to the one the sequential algorithm makes of it |
| HeapMachineAnswers.SettledAtRest | task05-memory/src/allocator.c:124-130 | from the unused heap, under every schedule, no two adjacent neighbours of an arena that nobody holds are free, and when no arena is held the heap is settled |
| HeapMachineMoves.MoveKeepsBytes | task05-memory/src/allocator.c:233-253 | in every run, `realloc` hands back the bytes its block held when it was called, as many as fit, whatever other threads do meanwhile; on failure they are all still in the block |
| DceSimulation.EraseEquivalent | task07-llvm/dead-code-elimination/src/DeadCodeElimination.cpp:18-21 | erasing an instruction without other effect whose result nothing uses preserves behaviour |
| DceBlocks.FoldEquivalent | task07-llvm/dead-code-elimination/src/DeadCodeElimination.cpp:32-38 | replacing a conditional branch with equal successors preserves behaviour |
| DceBlocks.ForwardEquivalent | task07-llvm/dead-code-elimination/src/DeadCodeElimination.cpp:42-48 | removing an empty forwarding block preserves behaviour |
| DceBlocks.StoreEquivalent | task07-llvm/dead-code-elimination/src/DeadCodeElimination.cpp:59-64 | erasing a store that no load of its block reads, to a slot private to the block, preserves behaviour if the block is not entered again, or starts with a store to the slot, or stores to it later |
| DcePreserve.EligibleIsPrivate | task07-llvm/dead-code-elimination/src/DeadCodeElimination.cpp:88-92 | a slot with as many uses as collected accesses is used by those accesses only: its address does not escape |
| DcePreserve.UnusedRegister | task07-llvm/dead-code-elimination/src/DeadCodeElimination.cpp:18 | a use count of zero means that no instruction or terminator names the register |
| DcePreserve.ForwardGood | task07-llvm/dead-code-elimination/src/DeadCodeElimination.cpp:42-48 | redirecting predecessors keeps the function well formed and fit for sweeping |
| DcePreserve.StillSweepable | task07-llvm/dead-code-elimination/src/DeadCodeElimination.cpp:98-109 | every rewrite of the pass keeps the side condition for all later rounds |
| DceSafety.LoopSafeSuffices | task07-llvm/dead-code-elimination/src/DeadCodeElimination.cpp:54-92 | the side condition holds if each slot that a rewrite may come to select is not re-entered, or first stored to, or has a use outside its block that nothing removes |
| DceSafety.LoadedAfterAllowed | task07-llvm/dead-code-elimination/src/DeadCodeElimination.cpp:71-92 | a loop-carried slot that is also loaded in another block, which the pass does not select, is admitted |
| DceMeasure.ImprovesTransitive | task07-llvm/dead-code-elimination/src/DeadCodeElimination.cpp:101-106 | any number of rewrites preserves behaviour and, if it changes anything, makes the function smaller |
| DceMeasure.EraseDeadImproves | task07-llvm/dead-code-elimination/src/DeadCodeElimination.cpp:14-24 | erasing a dead instruction preserves behaviour and strictly lowers the measure |
| DceMeasure.EraseStoreImproves | task07-llvm/dead-code-elimination/src/DeadCodeElimination.cpp:54-67 | erasing a dead store preserves behaviour and strictly lowers the measure |
| DceMeasure.FoldImproves | task07-llvm/dead-code-elimination/src/DeadCodeElimination.cpp:32-38 | folding a branch preserves behaviour and strictly lowers the measure |
| DceMeasure.ForwardImproves | task07-llvm/dead-code-elimination/src/DeadCodeElimination.cpp:42-48 | removing a forwarding block preserves behaviour and strictly lowers the measure |
| DceStores.LoadNextExactly | task07-llvm/dead-code-elimination/src/DeadCodeElimination.cpp:55-65 | the flag of the backward walk is set exactly if some load follows before the next store |
| DceStores.StillEligible | task07-llvm/dead-code-elimination/src/DeadCodeElimination.cpp:89-92 | a slot stays eligible while its dead stores go |
| DcePass.DeadCodeElimination.EliminateDeadInstructions | task07-llvm/dead-code-elimination/src/DeadCodeElimination.cpp:14-24 | the result behaves alike, the flag tells whether anything changed, and if nothing did, some operand names the register of every instruction that neither stores nor calls |
| DcePass.DeadCodeElimination.EliminateUselessBranchesAndBlocks | task07-llvm/dead-code-elimination/src/DeadCodeElimination.cpp:27-50 | the same, and if nothing changed, no conditional branch has equal targets and no block but the entry is empty and branches elsewhere |
| DcePass.DeadCodeElimination.EliminateDeadStoresForSlot | task07-llvm/dead-code-elimination/src/DeadCodeElimination.cpp:54-67 | the backward walk keeps exactly the stores that a load reads before the next store, and everything else |
| DcePass.DeadCodeElimination.EliminateDeadStores | task07-llvm/dead-code-elimination/src/DeadCodeElimination.cpp:71-95 | the same for any order of the slots, and if nothing changed, every store to a slot that only one block loads and stores is followed by a load before the next store |
| DcePass.DeadCodeElimination.Run | task07-llvm/dead-code-elimination/src/DeadCodeElimination.cpp:98-109 | for every well-formed function in which no slot the pass can come to select carries a value around a loop, the loop ends, the result behaves like the original, and it has no unused instruction without effect, no useless branch or block, and no stale store |
| DceFixpoint.FixpointExactly | task07-llvm/dead-code-elimination/src/DeadCodeElimination.cpp:98-109 | no stage has anything to do exactly when every instruction without effect defines a register that some operand names, no branch and no block is useless, and every store to a slot of one block is read |
| DceFixpoint.EligibleExactly | task07-llvm/dead-code-elimination/src/DeadCodeElimination.cpp:88-92 | the count of uses equals the number of accesses exactly if all that any operand does with the slot is to load from it and store to it in that block |
| DceFixpoint.UsesExactly | task07-llvm/dead-code-elimination/src/DeadCodeElimination.cpp:18 | a register has a use exactly if some operand of an instruction or terminator names it |
| DcePass.SameOutcome | task07-llvm/dead-code-elimination/src/DeadCodeElimination.cpp:98-109 | before and after the pass, a function returns the same result after the same calls, and makes the same calls if it runs for ever |
| DceLoops.NeverReenteredExactly | task07-llvm/dead-code-elimination/src/DeadCodeElimination.cpp:54-67 | a block satisfies the side condition exactly if no path of branches leads back to it |
| DceLoops.LoopCarriedCounterexample | task07-llvm/dead-code-elimination/src/DeadCodeElimination.cpp:54-92 | without the side condition the pass removes a store that changes what a function does |
| DceSlots.LiveIsSweep | task07-llvm/dead-code-elimination/src/DeadCodeElimination.cpp:54-67 | what the walk keeps of a body is what the sweep keeps of its accesses |
| DceSlots.LoadedIsReads | task07-llvm/dead-code-elimination/src/DeadCodeElimination.cpp:54-67 | when a block is executed, its loads put into registers what the list of its evaluated accesses reads, and the slot then holds what the list leaves |
| DceSlots.SweptPerformed | task07-llvm/dead-code-elimination/src/DeadCodeElimination.cpp:54-67 | the swept block performs the swept accesses with the same values, even from a stale slot |
| DceSlots.SweptLoads | task07-llvm/dead-code-elimination/src/DeadCodeElimination.cpp:54-67 | in a single execution of the block, every load puts the same value into its register before and after the sweep |
| DceSlots.SweepReads | task07-llvm/dead-code-elimination/src/DeadCodeElimination.cpp:54-67 | in a list of accesses, every load reads the same value before and after the sweep |
| DceSlots.SweepRoundsExactly | task07-llvm/dead-code-elimination/src/DeadCodeElimination.cpp:54-67 | a block that runs any number of rounds, storing any values in each, reads the same when swept if and only if it does not both start with a load and end with a store |
| DceContexts.SweepEquivalent | task07-llvm/dead-code-elimination/src/DeadCodeElimination.cpp:54-92 | in any function, sweeping a selected block that does not start with a load of the slot and end with a store to it preserves behaviour |
| DceContexts.SweepExactly | task07-llvm/dead-code-elimination/src/DeadCodeElimination.cpp:54-92 | a block with given accesses to a selected slot can be swept in every function, whatever it stores, if and only if the accesses do not start with a load and end with a store |
| Text.LinesApart | task02-fileio/src/log.c:71 | text that ends with a newline is cut into the same lines whatever follows it, whether its lines fit the buffer or not |
| Text.WordScanned | task02-fileio/src/log.c:77 | a word between white space is scanned whole by `%s` |
| Text.NatScanned | task02-fileio/src/log.c:77-87 | a number printed in octal or decimal is scanned back |
| Text.LinesRoundTrip | task02-fileio/src/log.c:71 | whole lines that fit the buffer, written one after another, are delivered one by one by `fgets` |
| LogCodec.HexRoundTrip | task02-fileio/src/log.c:42-93 | bytes printed as pairs of digits are decoded back |
| LogCodec.DecodeCut | task02-fileio/src/log.c:88-93 | decoding a cut text: a last byte with one digit is that digit, and a byte with none is never set |
| LogCodec.RecordOutcome | task02-fileio/src/log.c:58-104 | what the replay makes of the record of any operation, of any length: read back, skipped, read back with a wrong last byte, or wild |
| LogCodec.ReadBackExactly | task02-fileio/src/log.c:58-104 | a record other than of an empty write is read back as its operation, and nothing else, if and only if it is readable |
| LogCodec.EmptyRecord | task02-fileio/src/log.c:84-86 | the record of an empty write is skipped |
| LogCodec.OneLineExactly | task02-fileio/src/log.c:58-71 | a record is delivered as one line if and only if it is shorter than the line buffer |
| LogCodec.DataInsideExactly | task02-fileio/src/log.c:62-93 | decoding a write of the log stays inside the data buffer if and only if it has at most 2048 bytes, and sets all its bytes if and only if its record is at most one character longer than a line |
| LogCodec.LastByteLost | task02-fileio/src/log.c:62-93 | every write of 2042 bytes to "/f" is replayed with its last byte divided by 16 |
| LogCodec.WriteBound | task02-fileio/src/log.c:62-93 | a write that can be read back has at most 2042 data bytes, and at most 2041 if its record fits a line; so decoding stays inside both buffers |
| LogCodec.BoundReached | task02-fileio/src/log.c:39-45 | every write of up to 2041 bytes to a short path fits the line and is read back |
| Inodes.AddedWellFormed | task02-fileio/src/inode.c:72-97 | attaching a new inode keeps parent and child links inverse, names unique, good and slash-free, and directories narrow |
| Inodes.SearchedName | task02-fileio/src/inode.c:23-33 | a failed search means that no child of the directory has the name |
| Inodes.TokensSnoc | task02-fileio/src/inode.c:42-48 | a component appended to a path is one more token |
| Inodes.FindExactly | task02-fileio/src/inode.c:36-50 | a path leads to an inode if and only if its components are the names on the way to it |
| Inodes.PathFound | task02-fileio/src/inode.c:36-50 | every inode whose path fits the buffer is found by its path |
| FileOps.ExecKeeps | task02-fileio/src/memfs.c:64-191 | every operation, successful or not, keeps the tree well formed |
| FileOps.FailureChangesNothing | task02-fileio/src/memfs.c:64-191 | an operation that fails changes nothing |
| FileOps.MadeIsFound | task02-fileio/src/memfs.c:108-191 | after a successful creation the path that was asked for leads to the new inode, which has the requested mode and target and no data, if and only if its last part fits a name; otherwise the name is cut and the path leads nowhere |
| FileOps.ReadBack | task02-fileio/src/memfs.c:42-88 | what was written is what is read back at the same place |
| FileOps.WriteKeepsRest | task02-fileio/src/memfs.c:76-84 | bytes outside the range written, and all other files, keep their contents |
| FileOps.DeterminedExactly | task02-fileio/src/memfs.c:76-84 | the contents after a write are determined by the request if and only if it starts at or before the end of the file |
| FileOps.SameAgain | task02-fileio/src/log.c:95 | what succeeded once without a gap does the same when replayed without a handle |
| FileOps.EmptyWrite | task02-fileio/src/memfs.c:76-84 | a write of nothing within the file changes nothing |
| FileAnswers.CreateAnswers | task02-fileio/src/memfs.c:108-191 | mkdir, mknod and symlink answer -2 exactly if the path asks for no place in the tree, and otherwise -20, -17, -12 or 0 by whether the parent is a directory, has a child of that name, or is full |
| FileAnswers.CreateMakes | task02-fileio/src/memfs.c:108-191 | a successful mkdir, mknod or symlink adds one empty inode at the place the path asks for: a directory, a regular file, or a link with the target given, with the permissions of the mode; a mode with other bits of kind makes something else, exactly then |
| FileAnswers.WriteAnswers | task02-fileio/src/memfs.c:64-88 | a write answers -2, -21, -13, -22 or the number of bytes, each exactly when it should; every byte of the file afterwards is given, and nothing else changes |
| FileAnswers.ReadAnswers | task02-fileio/src/memfs.c:42-61 | a read answers -2, -21, -13, -22 or the number of bytes up to the end of the file, and delivers exactly these |
| FileAnswers.FreshFile | task02-fileio/src/memfs.c:64-141 | a regular file that has just been made takes any write at its start, and gives it back |
| Statistics.WalkIsTable | task02-fileio/src/inode.c:100-115 | the recursive walk counts every regular file of the tree exactly once, with all its bytes |
| MemFs.FileSystem.FindChild | task02-fileio/src/inode.c:23-33 | the loop finds the first child of that name, in a directory only |
| MemFs.FileSystem.FindByPath | task02-fileio/src/inode.c:36-50 | the token loop walks the components of the path, cut off at 1023 characters |
| MemFs.FileSystem.CreateInode | task02-fileio/src/inode.c:72-97 | the inode is added exactly if the parent is a directory with room |
| MemFs.FileSystem.AppendLog | task02-fileio/src/log.c:25-55 | the record of the operation is appended, and nothing while replaying |
| MemFs.FileSystem.Mkdir | task02-fileio/src/memfs.c:108-123 | tree, answer and log are those of the operation; a failure is not logged |
| MemFs.FileSystem.Mknod | task02-fileio/src/memfs.c:126-141 | the same for regular files |
| MemFs.FileSystem.Symlink | task02-fileio/src/memfs.c:171-191 | the same for symbolic links |
| MemFs.FileSystem.Write | task02-fileio/src/memfs.c:64-88 | the same for writes, with bytes never set taken from the heap |
| MemFs.FileSystem.Read | task02-fileio/src/memfs.c:42-61 | the bytes of the file from the offset on, clamped at its end, or the error |
| MemFs.FileSystem.CollectStatfs | task02-fileio/src/inode.c:100-115 | the recursion with its two accumulators adds up the walk below an inode |
| MemFs.FileSystem.Statfs | task02-fileio/src/memfs.c:194-205 | the figures are the number of regular files in the table and the sum of their sizes |
| MemFs.FileSystem.DecodeHex | task02-fileio/src/log.c:88-93 | the decode loop, inside its bounds, yields the bytes that the digits stand for, a last digit alone included, or nothing if a byte has no digit |
| MemFs.FileSystem.LoadLog | task02-fileio/src/log.c:58-107 | all lines of any log are replayed in order, up to the first whose outcome is wild, and nothing is appended |
| MemFs.FileSystem.Mount | task02-fileio/src/memfs.c:207-213 | recovery runs with logging off, leaves the log as it was, and tells whether its outcome is defined |
| Replay.RecordReplays | task02-fileio/src/log.c:75-103 | replaying the readable record of a successful operation does again what the operation did |
| Replay.Recovery | task02-fileio/src/log.c:58-107 | replaying the log of any run gives the tree in which the run ended |
| Replay.PrefixRecovery | task02-fileio/src/log.c:58-107 | replaying the first records of the log gives the tree after the requests they stand for |
| Replay.ServeAndRemount | task02-fileio/src/memfs.c:207-216 | a file system mounted on the log of another, after any run, holds the same tree and the same log |
| MemorySafety.CheckExactly | task07-llvm/memory-safety/src/MemorySafetyRuntime.cpp:38-61 | the neighbours-only check accepts exactly if a scan finds a live block with the whole access, or no block within 16 bytes of its start |
| MemorySafety.AcceptedExactly | task07-llvm/memory-safety/src/MemorySafetyRuntime.cpp:55-60 | an accepted access outside all live blocks touches a block exactly if it runs into the next one |
| MemorySafety.SafeExactly | task07-llvm/memory-safety/src/MemorySafetyRuntime.cpp:38-61 | every accepted access of a size lies in one live block or touches none, for all indexes and addresses, if and only if the size is at most 17 bytes |
| MemorySafety.SmallAccess | task07-llvm/memory-safety/src/MemorySafetyRuntime.cpp:38-61 | an accepted access of at most 17 bytes lies in one live block, or touches none |
| MemorySafety.LongAccess | task07-llvm/memory-safety/src/MemorySafetyRuntime.cpp:55-60 | at every size from 18 bytes on there is an accepted access that runs into a freed block |
| MemorySafety.FreedRejects | task07-llvm/memory-safety/src/MemorySafetyRuntime.cpp:47-52 | every access that starts in a freed block is rejected |
| MemorySafety.RegisteredOrdered | task07-llvm/memory-safety/src/MemorySafetyRuntime.cpp:65-77 | registering a block that is apart from the others keeps the index ordered and disjoint |
| MemorySafety.Runtime.CheckAddr | task07-llvm/memory-safety/src/MemorySafetyRuntime.cpp:38-61 | the check returns, rather than aborts, exactly as the scan says |
| MemorySafety.Runtime.Alloc | task07-llvm/memory-safety/src/MemorySafetyRuntime.cpp:65-77 | the index holds the new block, and all blocks with other starts |
| MemorySafety.Runtime.Free | task07-llvm/memory-safety/src/MemorySafetyRuntime.cpp:81-94 | succeeds exactly for null and for the start of a live block, which is then freed; double and invalid frees abort |
| StringOrder.SortedUnique | task00-sort/src/sort.cpp:14-20 | there is only one sorted sequence of the same strings, in either direction |
| ExternalSort.LineReadBack | task00-sort/src/sort.cpp:49-54 | a line written to a run file is read back whole, whatever its length |
| ExternalSort.FGetLine | task00-sort/src/sort.cpp:22-36 | the joined chunks give the next line; the buffer size is not visible |
| ExternalSort.Separate | task00-sort/src/sort.cpp:38-61 | the collected lines become one more sorted run file, and none is lost; without lines there is no file |
| ExternalSort.CollectRuns | task00-sort/src/sort.cpp:108-119 | the run files hold consecutive parts of the input, one each, and a part ends exactly with the line that brings its size to the limit, or with the input: so no more is held in memory |
| ExternalSort.Round | task00-sort/src/sort.cpp:74-84 | one round prints the least waiting line and keeps the order of queue, files and output |
| ExternalSort.Merge | task00-sort/src/sort.cpp:63-87 | the merge prints all lines of all run files in order |
| ExternalSort.SortAll | task00-sort/src/sort.cpp:89-121 | for every input and every limit, the output is a sorted permutation of the input |
| ExternalSort.SortTwice | task00-sort/src/sort.cpp:63-121 | two sorts of the same input with any two limits print the same |

## Left out

- Lock-free map: `free_hashmap` and `print_hashmap`; effects of memory orders weaker than sequential consistency.
- Lock-free map: linearizability of negative answers, which does not hold (`LockFreeRuns.NegativeExactly`, `LockFreeRuns.AbsentExactly` and `LockFreeExample.NotLinearizable` say what does).
- Lock-based map: `free_hashmap`, `print_hashmap` and the null checks of arguments; allocation failures other than that of a node.
- Lock-based map: one step reads the head and links the new node, which only its owner can see.
- Allocator: the memory is a sequence of bytes held in one field; alignment of the break by others is assumed, and nobody lowers it.
- Allocator.Heap.Malloc: requests for which header, size and reserve do not fit a signed 64-bit increment are a precondition.
- Allocator.Heap.GetThreadArena: the counter is unbounded; more than 2^31 threads are not modelled.
- Allocator: the calls of `Heap` are taken one at a time, as the arena locks make them; their interleaving is the subject of the `HeapMachine` modules, in which a thread is given any arena and a request is rounded already.
- HeapMachineInv.StepKeepsInv: the headers that a change of a list needs are read when it begins, since only the holder writes them; the fields of a new header, and the `size` and `next` of one header, are one store each; memory is sequentially consistent.
- HeapMachineInv.StepKeepsInv: a break that others have left unaligned is refused.
- DCE: phi nodes, volatile or partial-width accesses, terminators other than branches and returns, and plugin registration.
- DCE: `isInstructionTriviallyDead` is modelled as "no uses and no effect", and `TryToSimplifyUncondBranchFromEmptyBlock` as redirecting the predecessors of a block that is not the entry.
- DCE: a load through something that is not a pointer reads an undefined value, and a store does nothing, where LLVM leaves the behaviour undefined.
- DcePass.DeadCodeElimination.Run: the side condition is sufficient, not necessary, for one function: whether a loop runs twice is not decidable from its text. `DceContexts.SweepExactly` is exact for a block in all functions around it.
- DCE: a function whose entry block only forwards. The pass calls the library on it as well, which is outside the contract of `TryToSimplifyUncondBranchFromEmptyBlock` as modelled; `Run` leaves such a block alone.
- File system: FUSE plumbing, `getattr`, `readdir`, `open` and `readlink`; failures of `fopen`, `calloc`, `realloc` and `strdup`; NUL characters in names.
- LogCodec.RecordOutcome: numbers in a record fit their fields; a scanned number is reduced by the width of its field, where a number that C cannot represent is undefined. What happens after a wild outcome is not modelled.
- FileOps.ReadBack: sums of offset and size that wrap around 64 bits are not modelled.
- MemorySafety.CheckExactly: blocks are disjoint and away from the ends of the address space; stale entries that overlap new blocks are excluded.
- Memory safety: the instrumentation pass in `MemorySafety.cpp`.
- Sort: NUL characters in lines, failures of files, and option parsing.
- task01-*, task03-* and task06-*: wrappers of system calls, processes, generated parsers and sockets, which would only add easy members.
