# Verification of angelica's lock-free and memory-managing core

angelica is a C++ library of lock-free containers, a chunk allocator, an actor scheduler and asynchronous
sockets for Windows. This project models the parts whose correctness rests on interleavings or on shared
memory, and proves what those parts are for:

* `Msque`, `MsqueFifo`, `MsqueCalls`, `MsqueProgress`, `MsqueLockFree` - the Michael-Scott queue, one shared access a
  step, any number of threads, with the hazard pointers and reclaimers it relies on. Every run refines an atomic FIFO
  queue, told from the calls that were made; under the hazard discipline, with scans that meet every slot, no step
  reads a reclaimed node; a thread that runs alone finishes after a number of accesses known in advance; the queue as
  a whole is lock-free.
* `HazardSlots` - the list of hazard slots those scans walk (`acquire`, `release` and the scan of
  container/detail/_hazard_ptr.h, lines 87-162), one shared access a step: when a scan meets every slot, and what
  happens when it does not.
* `Extents`, `BigFree`, `SmallFree`, `ChunkSpace`, `Shelves`, `PoolHeap` - the allocator called by one thread at a
  time: blocks inside chunks, the sorted list of big free chunks with its probing search and its coalescing pass, the
  ring of free 64K chunks, micro heaps, and the whole heap over any run of requests. `Shelves` tells, from the state
  before a request, whether it comes back and what it leaves. `Stalls` drives two new heaps to requests that do not.
* `Handoff` - the `count` / `rec_flag` exchange between the owner of a chunk and the threads that free its
  blocks, one atomic access a step.
* `WriteBuff` - the double-buffered send buffer, one call at a time: arrays, segment tables, ownership of the
  raw buffers and conservation of the byte stream. `SendProtocol` - the same object's lock / recheck protocol
  between any number of writers, senders and completions, one shared access a step; `SendCalls` - what it does for
  those who call it.
* `Scheduler` - the actor scheduler's single token, `_run_flag`.
* `LockWord` - the reader / upgrader / writer lock packed into one 32-bit word.

`Wrappers` and `Tallies` are what several of these share.

Properties that turn out not to hold of the code are stated with the exact condition under which they do, and
with an input or a reachable state at which they fail:

* a scan for hazard pointers can miss slots behind one that is half linked, and then frees what they guard:
  `HazardSlots.ScanEndsIff`, `UncutRunsAreSafe`, `GuardedMayBeFreed`;
* the search of the big list need not end: `BigFree.HarmlessIff`, `SearchCanSpin`; with it a take and a recovery
  (`TakeHangsIff`, `RecoverReturnsIff`, `TakeAndRecoveryCanHang`), a coalescing pass (`MergeReturnsIff`,
  `PassCanHang`) and a free in a heap reached from a new one (`Stalls.FreeCanHang`) need not come back;
* a take from the ring of 64K chunks waits for ever when one more was put than taken: `SmallFree.TakeByCounts`,
  `OneChunkIsNotTaken`; a heap reached from a new one: `Stalls.AllocCanHang`;
* a put into that ring loses the chunk in its slot: `SmallFree.PutLosesIff`, `PutByCounts`, and with it memory:
  `PoolHeap.ViewAfterPut`;
* a coalescing pass drops chunks beyond 1024 groups: `Extents.CoalescedMemory`, `CoalescingCanLose`;
* `realloc` to a smaller size, inside a chunk, leaves a header that records more than is granted:
  `ChunkSpace.Space.Extend`;
* a moving `realloc` after an in-place growth loses bytes: `PoolHeap.MoveKeepsGrantIff`, `GrownBlockLosesBytes`;
* a late claim takes a chunk in use, and a weak exchange forgets one: `Handoff.WinningClaimIsEmptyIff`,
  `RecoveredMayBeInUse`, `ForgottenIffSlipped`, `StrongNeverForget`, `SlippedClaimForgets`;
* an event posted in the window before the flag is cleared is stranded: `Scheduler.StrandedIffMissed`,
  `EventCanBeStranded`;
* 32-bit sums let a write leave its buffer: `WriteBuff.StaysInsideIff`, `WrappingWritesLeave`.

## Model

| member | source | states |
|---|---|---|
| Msque.InitHasInv | container/msque.h:157-167 | what `get_list` leaves satisfies the whole invariant |
| Msque.ApplyKeepsInv | container/msque.h:66-154 | every single access of push and pop by any thread, and every action of a reclaimer, keeps: one acyclic list from `_begin` ending in a null `_next`, `_end` last or last but one, `_begin` never past `_end`, each passed node retired once or held by its popper, no guarded node reclaimed, exact size |
| Msque.RunsKeepInv | container/msque.h:66-154 | all of this in every state of every run of any number of threads |
| Msque.LinkKeepsShape | container/msque.h:95 | the link exchange at a node whose `_next` is null appends behind the last node and keeps the list shape |
| Msque.StaleSwingFails | container/msque.h:134-145 | an exchange on `_begin` or `_end` whose expected node has been retired fails |
| Msque.NeverReadsReclaimed | container/msque.h:74-151 | under the hazard discipline, with scans that meet every slot (`HazardSlots` says exactly when they do), no step dereferences a reclaimed node or expects one in an exchange, and neither end of the queue is ever a retired node |
| Msque.ReclaimersKeepInv | container/msque.h:145-151 | a scan that walks all slots and frees what it did not meet never frees a guarded node, however it interleaves with push and pop |
| Msque.QuiescentIsExact | container/msque.h:106-147 | when no operation is in progress exactly the nodes before `_begin` have been retired, none twice, and `_size` is the queue length modulo 2^32 |
| MsqueFifo.StepRefines | container/msque.h:66-154 | one access of a thread is one move of the atomic queue for that thread or invisible: push at the link exchange (95), pop at the swing of `_begin` (140), an empty pop at the null read of `_next` (122-124) |
| MsqueFifo.ApplyRefines | container/msque.h:66-154 | every action is the move it stands for: a start begins the push of the very value it was given, or a pop; an access moves its own thread or is invisible; a reclaimer moves nobody |
| MsqueFifo.RunsRefine | container/msque.h:66-154 | every run of any number of threads, seen through the contents met along `_next`, is a run of the atomic FIFO queue that starts empty, action by action |
| MsqueFifo.QueuedAppends | container/msque.h:95 | the link exchange adds exactly the pushed value at the end of what pointer chasing meets |
| MsqueFifo.NullSecondMeansEmpty | container/msque.h:121-127 | a pop that reads a null `_next` from a node it validated reads it of an empty queue |
| MsqueFifo.QuiescentCountsQueued | container/msque.h:52-58 | when no operation is in progress `_size` is the number of values met along `_next`, modulo 2^32 |
| MsqueFifo.FifoConserves | container/msque.h:66-154 | in every history of the atomic queue the values carried by the answers of pops, in the order in which they happened, followed by what is inside, equal what was inside followed by the values pushed |
| MsqueFifo.PoppedIsPrefixOfPushed | container/msque.h:66-154 | over any concurrent run the values pops have answered are, in order, a prefix of the values entered in the atomic queue, and the list holds the rest |
| MsqueCalls.AnswersAreAskedFor | container/msque.h:66-154 | whatever a thread is at and whatever it was last answered is what its last call asked for: a push of the value it was given, or a pop |
| MsqueCalls.EnteredAreArguments | container/msque.h:66-106 | the values entered are the arguments of exactly those calls of push that are no longer pending, each once, in the order in which their nodes were linked |
| MsqueCalls.PoppedArePushedArguments | container/msque.h:66-154 | over any concurrent run the values pops have answered, followed by what the list holds, are the arguments of the calls of push that are no longer pending, each call once, in link order |
| MsqueCalls.FreedAreReclaimed | container/msque.h:145-151 | what has been freed is exactly what scans have reclaimed, and had been retired |
| MsqueCalls.ReclaimedOnce | container/msque.h:145-151 | no node is freed twice |
| MsqueProgress.StepCounts | container/msque.h:76-151 | each access of a thread running alone lowers the exact count of accesses left by one, helping and stale locals included |
| MsqueProgress.StepsAreBounded | container/msque.h:76-151 | that count is at most 20 and zero only when idle |
| MsqueProgress.RunAlone | container/msque.h:66-154 | from any reachable state a thread left alone finishes in exactly the counted steps, its operation taking effect once on the queue as it was found |
| MsqueLockFree.UneventfulLowers | container/msque.h:66-154 | every start and every access that neither links, nor swings `_begin`, nor returns lowers one number for the whole queue, even when help sets all other threads back |
| MsqueLockFree.SomethingHappens | container/msque.h:66-154 | lock freedom: in every run, any stretch of more than 42 n + 1 starts and accesses of n threads, without spurious failures, links a node, passes one or completes an operation |
| HazardSlots.ApplyKeepsInv | container/msque.h:74-151 | every access of `acquire`, `release` and a scan, by any number of clients and scans, keeps: each slot leads to the one pushed before it unless its client is between the exchange of `_head` and the store of `next`, a slot that is not free has one client, and whatever is guarded and up for being freed has been collected once the scan has come to its slot |
| HazardSlots.SlotsAreExclusive | container/msque.h:74-115 | in every run no two clients have the same slot |
| HazardSlots.ScanEndsIff | container/msque.h:145 | a scan leaves the list at its last slot, or exactly if it loads the null `next` of a slot whose client has not stored it yet; otherwise it goes to the slot below |
| HazardSlots.FreedAboveIsUnguarded | container/msque.h:145 | what a scan frees although it is guarded is guarded in a slot below the one at which it left the list |
| HazardSlots.UncutRunsAreSafe | container/msque.h:74-151 | in every run in which no scan loads the `next` of a half-linked slot nothing that is guarded has been freed |
| HazardSlots.GuardedMayBeFreed | container/msque.h:74-151 | without that it is false: a reachable state in which a guarded pointer has been freed |
| HazardSlots.FreeIffNobodyHas | container/msque.h:74-151 | in every state of every run a slot is free exactly if no client has it, and then it is empty: a released slot can be taken again |
| HazardSlots.GuardStands | container/msque.h:74-151 | a client guards what it has published until it publishes something else or clears its slot, whatever the others do |
| HazardSlots.AcquireAlone | container/msque.h:74-115 | with nobody else moving and every slot linked `acquire` takes the free slot pushed last and changes nothing else, and pushes a new one if and only if none is free |
| HazardSlots.ScanAlone | container/msque.h:145 | with nobody else moving and every slot linked a scan frees of its candidates all that are in no slot, and no others |
| Extents.JoinKeepsMemory | pool/chunk.cpp:41-53 | replacing two touching chunks by `_merge_chunk`'s result keeps the covered addresses, the bytes and disjointness |
| Extents.MergeIff | pool/chunk.cpp:41-53 | two chunks become one if and only if some range holds exactly their addresses, each once; then it is that range, whichever of the two comes first |
| Extents.TwoNeighboursJoin | pool/mempage_heap.cpp:346-376 | of a list on which only two chunks touch, in whatever order and at whatever places, a pass with room leaves one chunk with exactly their addresses and all the others |
| Extents.FirstTouching | pool/mempage_heap.cpp:357-363 | the inner loop finds the first collected chunk that touches, if any |
| Extents.AbsorbAllMemory | pool/mempage_heap.cpp:354-371 | the pass from any intermediate state gains nothing, keeps ranges apart, and keeps all memory if and only if its final number of groups fits the room |
| Extents.CoalescedMemory | pool/mempage_heap.cpp:346-376 | one pass over a list: nothing gained, ranges stay disjoint, no more entries than before, and memory conserved exactly when there are at most `room` groups |
| Extents.NonTouchingLose | pool/mempage_heap.cpp:366-370 | a list without neighbours has as many groups as entries, and a pass over more than its room keeps exactly `room` of them |
| Extents.CoalescedApart | pool/mempage_heap.cpp:346-371 | of a list without neighbours the pass collects the last entry, the first, and then the others from the end, as many as there is room for |
| Extents.CoalescingCanLose | pool/mempage_heap.cpp:366-370 | for any room, 1024 included, a concrete list of room + 1 chunks of which a pass loses memory |
| Extents.SameCountSameChunks | pool/mempage_heap.cpp:171-173 | a pass that did not shorten the list left exactly the same chunks, so searching again would find nothing new |
| BigFree.ReturnsSoonOrNever | pool/mempage_heap.cpp:257-296 | `_bisearch` returns if and only if it returns within as many turns as there are entries |
| BigFree.SameCountsSamePositions | pool/mempage_heap.cpp:264-292 | where the search of a sorted list stands depends only on how many entries there are, how many are smaller and how many are not greater |
| BigFree.HarmlessListsReturn | pool/mempage_heap.cpp:257-296 | on a sorted list of at most five entries, or of seven, it always returns |
| BigFree.ExtremeRequestsReturn | pool/mempage_heap.cpp:257-296 | it returns for a request at or below the smallest entry or above the largest |
| BigFree.SearchCanSpin | pool/mempage_heap.cpp:264-292 | at every other length a request between the two sizes before the middle is never answered |
| BigFree.HarmlessIff | pool/mempage_heap.cpp:257-296 | every request to every sorted list of n disjoint chunks is answered if and only if n is at most five, or seven |
| BigFree.SearchAnswers | pool/mempage_heap.cpp:257-296 | the index of the first answering turn is a sorted insertion point, and there is none exactly if the loop never ends |
| BigFree.MergeReturnsIff | pool/mempage_heap.cpp:346-376 | a coalescing pass comes back if and only if the list is too short for it or each coalesced chunk meets an answered search among those before it, in whatever order equal sizes are |
| BigFree.WithoutNeighboursReturns | pool/mempage_heap.cpp:346-376 | a pass over a sorted list without neighbours always comes back |
| BigFree.PassCanHang | pool/mempage_heap.cpp:346-376 | a pass over disjoint chunks of 2, 3, 4, 5, 8, 9, 10 and 11 times 64K, of which only those of 3 and 4 touch, never comes back |
| BigFree.TrapHangs | pool/mempage_heap.cpp:346-376 | the same of any eight such chunks whose joined one belongs between the second and the third of the other six |
| BigFree.TakeHangsIff | pool/mempage_heap.cpp:159-186 | exactly when taking a chunk never comes back |
| BigFree.RecoverReturnsIff | pool/mempage_heap.cpp:234-255 | exactly when returning a chunk to the list comes back, the table being enlarged at most once and then in the heap's own chunk |
| BigFree.GrowsOnce | pool/mempage_heap.cpp:237-243 | a pass leaves no more than 1024 entries, so the table of 1024 is enlarged at most once and the bigger one never |
| BigFree.TakeAndRecoveryCanHang | pool/mempage_heap.cpp:159-255 | at every length but those there are disjoint chunks to which the recovery of another, and a take of its size, never come back |
| BigFree.ShortListsAreTakenFrom | pool/mempage_heap.cpp:159-186 | taking comes back for every request while the list has at most five entries, and leaves no more than it found |
| BigFree.ShortListsTakeMore | pool/mempage_heap.cpp:234-255 | returning a chunk comes back while the list has at most five entries, and adds one at most |
| BigFree.MergedListIsSorted | pool/mempage_heap.cpp:346-376 | a pass that comes back leaves a sorted list of exactly the coalesced chunks, no longer than before; it comes back for at most six entries |
| BigFree.InsertKeepsSorted | pool/mempage_heap.cpp:245-254 | inserting where the search says keeps the list sorted |
| BigFree.RemoveKeepsSorted | pool/mempage_heap.cpp:298-303 | removing an entry keeps the list sorted |
| BigFree.TakeIsTight | pool/mempage_heap.cpp:166-168 | the entry found fits the request and no other listed size lies strictly between |
| BigFree.TakesTightly | pool/mempage_heap.cpp:159-186 | a take that comes back yields a chunk on offer (listed, or coalesced if no listed one is big enough) that is big enough with no size on offer strictly between, and removes it alone; it yields nothing if and only if all on offer are too small |
| BigFree.BigFreeList.constructor | pool/mempage_heap.cpp:55-60 | an empty list with tables of 1024 |
| BigFree.BigFreeList.Bisearch | pool/mempage_heap.cpp:257-296 | the index returned is the search's answer: a sorted insertion point with an entry at least as big, or -1 when every entry is smaller; the bounded loop gives up exactly when the source's never ends |
| BigFree.BigFreeList.Erase | pool/mempage_heap.cpp:298-303 | the in-place shift removes exactly the entry at the index |
| BigFree.BigFreeList.Place | pool/mempage_heap.cpp:250-254 | the in-place shift inserts exactly the chunk at the index |
| BigFree.BigFreeList.InsertSorted | pool/mempage_heap.cpp:245-254 | the list is exactly the one with the chunk at the search's answer; not done if and only if the search does not return |
| BigFree.BigFreeList.Collect | pool/mempage_heap.cpp:352-371 | the loop over both tables in place computes the coalesced sequence |
| BigFree.BigFreeList.MergeBigfree | pool/mempage_heap.cpp:346-376 | done if and only if every insertion of the rebuild returns; then the list is sorted and holds exactly the coalesced chunks, or is untouched when not longer than the processor count; always done up to six entries |
| BigFree.BigFreeList.Recover | pool/mempage_heap.cpp:234-255 | done if and only if the pass a full list needs and the search return; then the list is exactly as told, sorted, with the chunk, in an array twice as long if the pass made no room, which happens once at most; always done up to five entries |
| BigFree.BigFreeList.SearchCoalesced | pool/mempage_heap.cpp:170-181 | the second search answers for the coalesced list; no answer exactly if the pass or that search never ends |
| BigFree.BigFreeList.Take | pool/mempage_heap.cpp:159-186 | the chunk taken is at least the request and tightest on the list; nothing is taken only if all listed are too small; the list left is exactly as told; no answer exactly if one of the searches never ends, and never with at most five entries |
| SmallFree.TakenLeaves | pool/mempage_heap.cpp:134-157 | the chunk a take yields has left the ring, which otherwise holds what it held; a take that finds nothing or waits changes nothing |
| SmallFree.PutLosesIff | pool/mempage_heap.cpp:205-232 | a put adds its chunk and loses the one in the slot it stores to: nothing is lost if and only if that slot was empty |
| SmallFree.TakeByCounts | pool/mempage_heap.cpp:138-153 | told from how many chunks were put and taken: a take finds the ring empty if and only if none was put yet or exactly a round more than taken, waits for ever if and only if one more was put than taken (unless it has come round to the first), and else yields a chunk |
| SmallFree.PutByCounts | pool/mempage_heap.cpp:208-230 | told from the counts: a put loses a chunk if and only if more than a round more was put than taken, or it is number 1025 counted from a new ring |
| SmallFree.NewRingIsCounted | pool/mempage_heap.cpp:49-53 | the counters of a new ring are 0 and 0 |
| SmallFree.RunByCounts | pool/mempage_heap.cpp:134-232 | after any puts and takes two counters tell exactly which slots hold a chunk and where the indices stand, as long as no put is made more than a round ahead |
| SmallFree.OneChunkIsNotTaken | pool/mempage_heap.cpp:145-151 | one put into a new ring, and a take never comes back |
| SmallFree.FreeRing.constructor | pool/mempage_heap.cpp:49-53 | an empty ring of 1024 slots |
| SmallFree.FreeRing.Take | pool/mempage_heap.cpp:134-157 | the take in place answers and leaves exactly what is told, and says so where the source waits for ever |
| SmallFree.FreeRing.Put | pool/mempage_heap.cpp:205-232 | the put in place leaves exactly what is told |
| ChunkSpace.GrantKeepsSpace | pool/chunk.cpp:55-78 | granting the next stretch keeps headers and granted regions of live blocks pairwise apart and between chunk header and slide, and counts exact |
| ChunkSpace.GrowKeepsSpace | pool/chunk.cpp:98-104 | a block whose recorded end is the slide was granted exactly its recorded size, and growing it keeps all of this |
| ChunkSpace.FreeKeepsSpace | pool/chunk.cpp:109-114 | freeing a block keeps it, and the count was positive |
| ChunkSpace.FitsIff | pool/chunk.cpp:55-65 | a request fits exactly if the addresses of its header and payload lie in the chunk; they begin behind the header of an empty chunk, and behind every live block of any other |
| ChunkSpace.Space.Malloc | pool/chunk.cpp:55-78 | grants the stretch at the slide, restarting an empty chunk, if and only if header and payload fit; otherwise null with count restored |
| ChunkSpace.Space.Extend | pool/chunk.cpp:80-107 | for any size: the last block of its chunk grows in place if strictly less than the rest is needed, or shrinks, and the header keeps the old size; the space stays sound if and only if no last block shrinks |
| ChunkSpace.Space.Drop | pool/chunk.cpp:109-114 | the block is gone and its chunk's count one lower |
| ChunkSpace.Space.Adopt | pool/mempage_heap.cpp:125-129 | a chunk enters use with a fresh header |
| Handoff.ApplyKeepsInv | pool/chunk.cpp:109-119 | every single access of the owner and of any freer keeps the count exact up to a raise in progress and the claim bookkeeping consistent |
| Handoff.OneWinnerPerOffer | pool/mirco_mempage_heap.cpp:27-82 | in every interleaving each `rec_flag = 1` has at most one winner (owner keeps, owner recovers, or a freer recovers), and a chunk is recovered at most once |
| Handoff.ForgottenIffSlipped | pool/chunk.cpp:109-119 | at quiescence a chunk the owner has left with no live block has been recovered if and only if no exchange has failed without cause since one won and since the count reached zero |
| Handoff.StrongNeverForget | pool/chunk.cpp:109-119 | in a run in which no exchange fails without cause such a chunk has been recovered, once |
| Handoff.WinningClaimIsEmptyIff | pool/chunk.cpp:114-117 | a winning claim finds a live block if and only if one is live that was granted between the freer's two accesses, and finds none if and only if the count is zero |
| Handoff.OtherRecoveriesAreEmpty | pool/mirco_mempage_heap.cpp:45-55 | every recovery that is not a freer's claim, the owner's included, finds no live block |
| Handoff.RecoveredIsEmpty | pool/chunk.cpp:114-117 | with decrement and claim as one step a recovered chunk has no live block, in every run |
| Handoff.RecoveredMayBeInUse | pool/chunk.cpp:114-117 | with the two apart it is false: a reachable state with a stored chunk that holds a live block |
| Handoff.SlippedClaimForgets | pool/chunk.cpp:115-118 | a reachable state in which one spurious failure of the weak exchange has lost an empty chunk for good |
| Handoff.KindIsAsked | pool/mirco_mempage_heap.cpp:21-82 | the decision an owner is taking is that of its last request that did not fit |
| Handoff.OwnerDecides | pool/mirco_mempage_heap.cpp:27-82 | in every interleaving the owner keeps its chunk only for a request the chunk can serve and recovers it only for one that needs a bigger chunk, in both cases without live blocks; it retires it exactly if blocks are live when it looks again, or if its exchange fails without cause |
| Handoff.DecidedAlone | pool/mirco_mempage_heap.cpp:27-82 | with nobody else moving a request that does not fit has the owner keep an empty chunk that can serve it, recover an empty one that cannot, and leave any other on offer |
| Handoff.FreeAlone | pool/chunk.cpp:109-119 | a free takes exactly its block, and recovers the chunk exactly if that was the last one and the chunk is on offer |
| PoolHeap.ReworkKeepsStore | pool/mempage_heap.cpp:346-376 | a reworked list that covers nothing new stays apart from everything in use and from the rest of the store |
| PoolHeap.ReplaceKeepsPlaces | pool/mirco_mempage_heap.cpp:27-57 | replacing a current chunk that was given up or is gone keeps every chunk in exactly one place |
| PoolHeap.FreeKeepsPlaces | pool/chunk.cpp:114-118 | a retired chunk leaves exactly with its last block |
| PoolHeap.LiveBlocksAreNotFree | pool/mirco_mempage_heap.cpp:21-87 | no chunk on a free store contains any part of a live block |
| Shelves.OwnChunkIsEnough | pool/mempage_heap.cpp:28-60 | if the heap's own 64K chunk holds its tables and the bigger one that may come, the processors are few enough for that one to be the last |
| Shelves.GotIsChosen | pool/mempage_heap.cpp:109-186 | what `_chunk` does about the free stores, told from them: for 64K with different indices the slot after `_alloc_slide` decides, and the list is untouched; otherwise the ring is, and the tightest chunk on offer leaves the list, or none is big enough |
| Shelves.WantedHasRoom | pool/mirco_mempage_heap.cpp:24-57 | a chunk the request does not fit in is replaced by one of its own size or of the least multiple of 64K that holds the request with its headers twice, whichever is more; a small one by 64K, which holds any small request |
| Shelves.ShortShelfServes | pool/mempage_heap.cpp:66-203 | while the list has at most four entries an alloc, free or realloc fails to come back if and only if it asks the ring for a chunk and the ring lets it wait |
| Shelves.BreaksOffLate | pool/mempage_heap.cpp:66-203 | a run that breaks off at the list, rather than at the ring, began with, or has put, at least five chunks on it |
| Shelves.ServedKeepsShelf | pool/mempage_heap.cpp:66-203 | a served request leaves the list sorted, within its table and at most two entries longer |
| Stalls.FreeCanHang | pool/mempage_heap.cpp:66-255 | any new heap, after eight blocks of which all but the third and the last have been freed: freeing the third never comes back |
| Stalls.AllocCanHang | pool/mempage_heap.cpp:66-232 | any new heap, after five requests that fill two small chunks and free the first: a request for 2000 bytes never comes back |
| PoolHeap.ChunkForHasRoom | pool/mirco_mempage_heap.cpp:24 | the rounded size is the least multiple of 64K that holds chunk header, block header and payload twice |
| PoolHeap.MoveKeepsBytes | pool/mempage_heap.cpp:99-103 | after a move the recorded bytes are at the new place and every other live block's bytes are unchanged |
| PoolHeap.MoveKeepsGrantIff | pool/mempage_heap.cpp:92-103 | copying the recorded bytes keeps all bytes the block had been granted, whatever they are, if and only if the header still records the whole grant |
| PoolHeap.GrownBlockLosesBytes | pool/mempage_heap.cpp:86-107 | in any new heap: a block of 100 bytes grown in place to 200, with a byte written at 150, moved by a third request, no longer has that byte |
| PoolHeap.ViewAfterPut | pool/mempage_heap.cpp:205-232 | a 64K chunk put into the ring maps no address that was not, and unmaps none if and only if the slot it is stored to was empty |
| PoolHeap.PutMaps | pool/mempage_heap.cpp:188-203 | a chunk going to the store maps and unmaps no address if the list loses none |
| PoolHeap.TakeMaps | pool/mempage_heap.cpp:134-186 | a chunk taken from the store accounts for exactly the addresses that leave it |
| PoolHeap.MempageHeap.constructor | pool/mempage_heap.cpp:27-64 | each micro heap starts with a chunk of 256K and one of 64K, everything apart and in its place |
| PoolHeap.MempageHeap.GetChunk | pool/mempage_heap.cpp:109-132 | comes back exactly if neither the ring lets it wait nor a search of the list never ends; the chunk is the next of the ring (64K only), else the tightest listed or coalesced one that is big enough, else, exactly if the ring gives none and all on offer are too small, one of the requested size from the system; its header is fresh; no address is lost while the list has at most 1024 entries, and none comes from elsewhere |
| PoolHeap.MempageHeap.TakeSmall | pool/mempage_heap.cpp:134-157 | answers as the ring does: nothing, a wait for ever, or the chunk in the slot after `_alloc_slide`, which leaves the store exactly |
| PoolHeap.MempageHeap.RecoverChunk | pool/mempage_heap.cpp:188-203 | comes back exactly if the chunk is a 64K one or the list's recovery does; an empty chunk goes to the ring or to the big list by its size and the other is unchanged; no address is lost if there was room, and of a 64K chunk exactly if its slot in the ring was empty |
| PoolHeap.MempageHeap.AllocBig | pool/mirco_mempage_heap.cpp:21-62 | gives up exactly when recovering the empty current chunk or getting another never comes back; otherwise grants exactly one new block: from the current chunk, at its slide, if the request fits, else the first stretch of the chunk told, no smaller and no smaller than twice the request, the old one being still in use, given up, exactly if it had live blocks |
| PoolHeap.MempageHeap.AllocSmall | pool/mirco_mempage_heap.cpp:64-87 | gives up exactly when getting a 64K chunk never comes back, at the ring or at the list; otherwise the same for requests under 4096 bytes |
| PoolHeap.MempageHeap.MicroAlloc | pool/mirco_mempage_heap.cpp:89-99 | comes back with a block unless one of these searches, or the wait at the ring, never ends |
| PoolHeap.MempageHeap.AcquireMicro | pool/mempage_heap.cpp:70-81 | takes the flag of the first micro heap whose flag was clear; finds none only if all are set |
| PoolHeap.MempageHeap.Alloc | pool/mempage_heap.cpp:66-84 | null if and only if all micro heaps are busy; never comes back exactly as told for the first clear one, which with at most four listed chunks means exactly if it needs another 64K chunk and the ring lets it wait; otherwise one new block in the chunk told, all others and all bytes untouched |
| PoolHeap.MempageHeap.Free | pool/chunk.cpp:109-120 | exactly the block is gone and its chunk's count lower, or the chunk recovered if it was given up and this was its last block; comes back exactly if that recovery does, and always with at most five listed chunks; no address is lost if the stores had room for a chunk |
| PoolHeap.MempageHeap.Realloc | pool/mempage_heap.cpp:86-107 | stays exactly if nothing above the record is asked for or the block can grow in place, and then no byte changes and only the slide and the grant do; otherwise moves, keeping min(recorded, requested) bytes, or all granted ones if the record is the grant; every other live block keeps place, grant and bytes; size 0 frees; null exactly if it must move and all micro heaps are busy; comes back exactly as told, which with at most four listed chunks means unless it must move, needs another 64K chunk and the ring lets it wait |
| PoolHeap.MempageHeap.Move | pool/mempage_heap.cpp:97-104 | allocate, copy what is recorded, free, in that order; comes back exactly if both do; a refused allocation leaves the block as it was |
| PoolHeap.MempageHeap.Run | pool/mempage_heap.cpp:66-107 | any run of alloc, free and realloc is served one after the other exactly as told, or breaks off at a request that never comes back, at the ring or, after requests enough, at the list; the whole-heap invariant holds at the end; and, for runs of any length, no address ever mapped is lost if before every request there was room for two chunks in ring and list |
| PoolHeap.FreshLater | pool/chunk.cpp:13-28 | a step that takes one piece of memory from the system leaves every later piece apart from the heap |
| SendProtocol.ApplyKeepsInv | async_net/sock_buff.cpp:127-260 | every access of any writer, sender or completion keeps lock ownership, the flag, the two pointers and the byte stream consistent |
| SendProtocol.RunsKeepInv | async_net/sock_buff.cpp:127-260 | the same in every state of every run |
| SendProtocol.CopiesGoToCurrentHalf | async_net/sock_buff.cpp:129-180 | whoever is about to copy works on the current half, alone; the exchange at 175 cannot fail; completed, flying and waiting bytes are the bytes written, in order |
| SendProtocol.HalfInFlightIsFrozen | async_net/sock_buff.cpp:213-260 | no step but the completion's clear touches the half that is not current, and a half in flight holds exactly what it promised |
| SendProtocol.LockIsExclusive | async_net/sock_buff.cpp:132-215 | two threads never both upgrade or own the lock of one half |
| SendProtocol.QuietMeansSentOrWaiting | async_net/sock_buff.cpp:213-260 | when nothing is under way every written byte has been sent or waits in the current half |
| SendCalls.ThreadsDoAsAsked | async_net/sock_buff.cpp:127-260 | whatever a thread of a run is doing is what its last call asked for, a writer with the data of that call |
| SendCalls.WrittenAreTheCalls | async_net/sock_buff.cpp:127-183 | over any run the bytes written are the data of calls of write, one after another: of all calls but those whose bytes are still to be copied, each once; a call copied before another one was made comes before it |
| SendCalls.QuietMeansAllCalls | async_net/sock_buff.cpp:127-260 | when nothing is under way the bytes of completed sends, followed by those waiting, are the data of all calls of write, each once |
| SendCalls.FlagIsHeldInRuns | async_net/sock_buff.cpp:228-260 | in every state of every run the flag is clear unless a send is on the wire or some thread is in charge of it |
| SendCalls.WriteAlone | async_net/sock_buff.cpp:127-183 | with nobody else moving a write on an unlocked half ends after 7 accesses, or 9 when the buffer is too small, with exactly its data added to that half and nothing else changed |
| SendCalls.SendAlone | async_net/sock_buff.cpp:213-255 | with nobody else moving a sender on an unlocked half starts a send if and only if the flag is clear and something waits; then the halves change places, and otherwise nothing changes |
| SendCalls.CompleteAlone | async_net/sock_buff.cpp:257-260 | with nobody else moving a completion empties the half in flight, counts its bytes as sent and clears the flag |
| SendCalls.QuietCanBeSent | async_net/sock_buff.cpp:213-260 | from any state of any run in which nothing is under way and bytes wait, one sender and its completion bring out every byte ever written |
| WriteBuff.StaysInsideIff | async_net/sock_buff.cpp:141-169 | a write's copy stays in its buffer exactly when neither 32-bit sum wraps, or the first wraps to a value still too big |
| WriteBuff.WrappingWritesLeave | async_net/sock_buff.cpp:141-169 | in every half that is not empty the write that wraps the sum to 0 passes the test and leaves the buffer, and so does one of 4 GB less a byte |
| WriteBuff.RoomIs | async_net/sock_buff.cpp:160-164 | a buffer that replaces one too small is a page, or the least multiple of 4096 that holds the bytes, or of no size at all when the sum wraps |
| WriteBuff.SmallRunsStayInside | async_net/sock_buff.cpp:127-260 | while buffers are at most 2 GB no run of writes below 2 GB has one that leaves its buffer |
| WriteBuff.SegmentAt | async_net/sock_buff.cpp:74-79 | each row of a segment table is non-empty and in a buffer no earlier row is in |
| WriteBuff.SaveOne | async_net/sock_buff.cpp:103-104 | one more row in a buffer of its own adds exactly its bytes to what is sent |
| WriteBuff.BuffPool.Get | async_net/sock_buff.cpp:165 | a buffer nobody else has, big enough, out of the pool or new |
| WriteBuff.BuffPool.Release | async_net/sock_buff.cpp:76 | a buffer is given up once, to the pool or to the system by its size |
| WriteBuff.Buffex.constructor | async_net/sock_buff.cpp:37-51 | an empty half with one page and a table of eight |
| WriteBuff.Buffex.PutBuff | async_net/sock_buff.cpp:85-105 | the filled part of the current buffer becomes the last segment; a full table doubles and keeps its rows |
| WriteBuff.Buffex.Clear | async_net/sock_buff.cpp:67-82 | every saved buffer but the current one is given up, each once, and the half is empty |
| WriteBuff.Buffex.Destroy | async_net/sock_buff.cpp:53-65 | every buffer of the half is given up, each once |
| WriteBuff.Buffex.Write | async_net/sock_buff.cpp:141-180 | the bytes are appended to the half's bytes over fit, overflow and oversize; exactly on overflow of a non-empty buffer that buffer becomes a segment; no buffer is lost or given up while it holds bytes; saved segments imply a non-empty current buffer |
| WriteBuff.WriteBuffer.constructor | async_net/sock_buff.cpp:109-112 | two empty halves with buffers of their own and nothing sent |
| WriteBuff.WriteBuffer.Write | async_net/sock_buff.cpp:127-183 | the stream grows by exactly the bytes written, the half in flight is untouched, every buffer stays in exactly one place |
| WriteBuff.WriteBuffer.SendBuff | async_net/sock_buff.cpp:213-255 | true if and only if nothing was in flight and something waited; then all that waited is in flight and the halves have swapped |
| WriteBuff.WriteBuffer.Clear | async_net/sock_buff.cpp:257-260 | what was in flight is completed, nothing is in flight, the stream is unchanged and no buffer is lost |
| WriteBuff.WriteBuffer.Init | async_net/sock_buff.cpp:119-124 | both halves are emptied for reuse without losing a buffer |
| WriteBuff.WriteBuffer.Destroy | async_net/sock_buff.cpp:114-117 | every buffer is given up, each once |
| WriteBuff.WriteBuffer.Run | async_net/sock_buff.cpp:127-260 | over any run of writes, sends and completions: it goes through if and only if no write leaves its buffer, told from the fill levels at the start, and then completed ++ in flight ++ waiting is the concatenation of all writes |
| Scheduler.ApplyKeepsToken | active/active_server.cpp:33-42 | every step keeps: posters between exchange and put, plus pool entries, plus workers between take and store, are 1 when `_run_flag` is set and 0 otherwise |
| Scheduler.ApplyKeepsOrder | active/mirco_active.cpp:39-49 | every step keeps started ++ queued events equal to the posted ones |
| Scheduler.ApplyKeepsWindow | active/mirco_active.cpp:42-47 | every step keeps: waiting events have somebody who will look at them, unless an exchange came into the window |
| Scheduler.RunsKeepInv | active/active_server.cpp:33-87 | all three for every actor in every state of every run |
| Scheduler.OneWorkerPerActor | active/active_server.cpp:33-87 | never two workers in one actor, never one worker and a pool entry, and handlers start in queue order, each at most once |
| Scheduler.StrandedIffMissed | active/mirco_active.cpp:42-47 | when all is quiet an actor's events are stranded if and only if an exchange fell between a worker's last look and its store of the flag |
| Scheduler.EventCanBeStranded | active/active_server.cpp:38-39 | a reachable quiet state with an event that nobody will run |
| Scheduler.StartedAndQueuedArePosted | active/mirco_active.cpp:22-47 | in every run the events an actor has started, followed by its queue, are the events of the posts to it, each once and in order |
| Scheduler.QuietHasStartedAll | active/mirco_active.cpp:22-47 | when all is quiet an actor has started everything posted to it if and only if no exchange fell into the window |
| Scheduler.EachHasItsHandler | active/mirco_active.cpp:39-49 | in every run each event an actor has started has had a handler of its own, which has returned or is running |
| Scheduler.WorkerAlone | active/active_server.cpp:33-42 | a worker alone starts all events queued, in order, and leaves the actor free to be run again |
| Scheduler.PostAlone | active/active_server.cpp:79-87 | a post alone queues its event and puts the actor into the pool exactly if its flag was clear |
| Scheduler.NextPostRescues | active/active_server.cpp:33-87 | what has been stranded is started by the next post to the actor and a worker that takes it |
| LockWord.InitHasInv | container/concurrent_interval_table.h:30-35 | a word of 0 and nobody inside |
| LockWord.ApplyKeepsInv | container/concurrent_interval_table.h:228-326 | every load, exchange and decrement of any client keeps the word and the holders in agreement |
| LockWord.RunsKeepInv | container/concurrent_interval_table.h:228-326 | the same in every state of every run |
| LockWord.WordTellsHolders | container/concurrent_interval_table.h:228-326 | the word is -1 if and only if one writer holds it, alone; otherwise readers + 65536 * upgraders in range, fields never carrying; the tombstone is never reached by counting |
| LockWord.BuriedByErase | container/concurrent_interval_table.h:211-214 | the tombstone is there only because a writer stored it |
| LockWord.WriterIsAlone | container/concurrent_interval_table.h:304-326 | a writer excludes every other client |
| LockWord.KindIsAsked | container/concurrent_interval_table.h:228-326 | from its start until it is free again a client tries for, holds and releases the kind it asked for |
| LockWord.AskedAloneIsAlone | container/concurrent_interval_table.h:304-326 | in every run a client that asked to be the only one and has got in excludes every other client |
| LockWord.GetsInIff | container/concurrent_interval_table.h:228-322 | with nobody else moving a client is inside two accesses after its start, as the kind it asked for, if and only if the holders inside let that kind in; it gives up if and only if the word is buried |
| LockWord.WriterLeavesNobody | container/concurrent_interval_table.h:324-326 | a writer that lets go leaves the word at 0 and nobody inside |
| LockWord.LetsGo | container/concurrent_interval_table.h:248-302 | with nobody else moving a reader or upgrader is out three accesses after it begins to let go, with its own unit and nothing else |
| LockWord.ReleaseTakesOwnUnit | container/concurrent_interval_table.h:248-302 | a release always finds its own unit, never the early exit, and takes exactly that unit out |

## Left out

- msque.h: node addresses are never handed out twice, and `__list` is fixed: `clear` beside push or pop re-reads `__list` on every access, so invariants of one list do not apply.
- Msque.ApplyKeepsInv: loading a pointer and publishing it in a hazard slot are one step where the source stores what it loaded (lines 75-99, 114-136); the test that follows reads the pointer again.
- Msque.ReclaimersKeepInv: scans are taken to meet every slot. When they do is in HazardSlots, which takes a pointer's publication and the test after it as one step and leaves out `llen` and the eight lists of `retire`.
- Loads and stores of shared words take effect in one order for all threads; `_hazard`, a plain pointer in the source, is one of them.
- Msque.NeverReadsReclaimed: a reclaimer may take any set of retired nodes; the eight lists of `retire` and when it scans are left out.
- BigFree.BigFreeList.Bisearch: gives up after as many turns as there are entries, where the source's loop would go on for ever; the methods above it then answer `NeverReturns` or `Stuck`, and nothing is promised of the state a thread leaves that never comes back.
- BigFree.BigFreeList.Grow: the bigger table comes out of the heap's own chunk, which holds it whenever `sizeof(struct mempage_heap)` and 32 bytes a processor leave room (Shelves.OwnChunkSuffices); were it full, `_resize_bigfreelist` would search the list under the spin flag it holds.
- SmallFree.FreeRing.Put: the branch that enlarges the ring never does, because it tests an index that has not been raised yet; what several threads do to the ring is not modelled.
- PoolHeap.MempageHeap.RecoverChunk: `_merge` is left out; with one thread its loop has nothing to look at when it is called.
- PoolHeap.MempageHeap.Run: "no address is lost" is stated while the list has at most 1024 entries and the next two slots of the ring are empty; the exact condition for one pass is in Extents.CoalescedMemory, for one put in PoolHeap.ViewAfterPut. Where the system maps a new chunk is left open.
- PoolHeap.MempageHeap.AllocBig: branches in which a count that was loaded changes before the next load cannot be taken by one thread; `Handoff` has them.
- The wrap of `size_t` for requests near the end of the address space, a null chunk from the system, and chunk descriptors of a heap's own tables are not modelled.
- Handoff.RecoveredIsEmpty: assumes that a free's decrement and claim are one step; Handoff.WinningClaimIsEmptyIff says what holds without it. One life of one chunk with one owner is modelled; a claim left over from an earlier life is not.
- WriteBuff.Buffex.Write: where the copy would leave the buffer the answer is false and the model stops; what the source's memory holds after that is not modelled.
- WriteBuff.StaysInsideIff: takes a 32-bit `size_t`, where the allocator takes a 64-bit build; on 64 bits the sum of line 161 does not wrap, so its condition on the length alone holds of 32-bit Windows only.
- WriteBuff.WriteBuffer.SendBuff: with one call at a time the try-lock of line 215 succeeds and the recheck of line 232 agrees; `SendProtocol` has the other outcomes. `_wsabuf_mu` and the zeroing of debug builds are left out.
- SendCalls.QuietCanBeSent: says that the next call of `send_buff` can send what waits, not that there is one: a sender that loses the try-lock returns false and may leave bytes behind.
- BuffPool and no_blocking_pool.h: a queue for one thread; its slots and try-locks are left out. The Linux branch of `write_buff`, errors of `WSASend` and `read_buff` are left out.
- Scheduler.EventCanBeStranded: `_run_flag` of a new actor is taken to be false (its constructor does not set it). `mirco_active::do_one` bypasses the token and is left out, and so are the condition variable and the stopping of workers.
- LockWord.WordTellsHolders: clients release what they took, and a writer may store the tombstone as `erase` does; `unlock_upgrad_and_lock`, the revival of a tombstone in `insert` and the table operations, which return on several paths without unlocking, are left out.
- MsqueLockFree.SomethingHappens: counts neither spurious failures of the weak exchange nor the wait of `retire` for a free list.
- Other containers, string helpers, timers, sockets, threads and everything under `delete/`: not modelled.
