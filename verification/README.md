# Verification of the VENUS scheduler

The repository is the firmware of a dataflow scheduler. It has two cores, and
this project models both and proves properties of their whole runs.

**The heap** (`src/mem_alloc.c`, `src/mem_block.c`, `src/mem_free.c`) is an array
of 32-bit words. Every block has a tag at both ends; free blocks also hold the
links of a circular list; a 64-byte aligned descriptor may leave a back-pointer in
its payload. Seven files build on each other:

- `Bits.dfy`: the masks of a tag word, bit by bit.
- `BlockLayout.dfy`: the heap as a client sees it, a sequence of blocks and the
  free ring, with `Allocate` and `Release` as functions on it.
- `HeapWords.dfy`: how such a layout is laid down in words.
- `Heap.dfy`: the class `Allocator`, with the program's globals as fields and its
  functions as methods over a `uint32` array. Each method is proved to make the
  step that `Allocate` or `Release` describes.
- `HeapRuns.dfy`: theorems about every run from `heap_init` on.
- `HeapEffects.dfy`: what each call does to the blocks and the ring, in numbers.
- `HeapClient.dfy`: a client that carries out any list of calls and stores on an
  `Allocator`, proved to make such a run.

**The scheduler** (`src/fire_check.c`, `src/task_callback.c`,
`dma/transfer_callback.c`, `src/fifo.c`) moves tokens between actors. A state
(`Dataflow.dfy`) holds the FIFOs, the ready list, each actor's fire list and
linger list, the blocks, the queue of idle blocks and the data cells with their
counts.

- `TokenFifo.dfy`: the token FIFO, and where its size and overflow tests are exact.
- `TokenFlow.dfy`: counting tokens, and why one sweep of `ready_search` suffices.
- `SchedulerSteps.dfy`, `SchedulerInvariants.dfy`, `SchedulerRuns.dfy`: the events
  (a block interrupts, an idle block is given work, a transfer ends), the invariant
  every event keeps, and termination and completion of every run.
- `SchedulerEffects.dfy`, `ResultRows.dfy`: what each event does, spelled out, and
  over any run which token the results of a firing put on which edge.
- `LingerDrain.dfy`, `WrittenHandler.dfy`, `DrainExamples.dfy`: the result handler
  as it is written; exactly when it returns, exactly when it delivers in order, runs
  of the program as written, and two runs that lead to a wrong delivery.
- `Determinacy.dfy`: in static graphs the graph and the packets alone decide every
  value, whatever the blocks do.
- `TokenShares.dfy`, `RefCounts.dfy`: in every graph the count of a data cell is the
  number of its tokens, those that pseudo tasks dropped included.
- `DynamicGraphs.dfy`, `PseudoExamples.dfy`: exactly when a pseudo task keeps its
  place in the order, and two runs of whole programs, one in which a pseudo token
  overtakes a firing and one that ends with a data cell lost.
- `WrittenRuns.dfy`: values and memory of the program as written, with at most two
  packets.
- `ActorScheduler.dfy`: the class `Scheduler`, with the program's globals as fields
  and the handlers, loops included, as methods. Each method is proved to make the
  step of `SchedulerRuns`, or of `WrittenHandler` where results are delivered.
- `ResultTokens.dfy`: the calls that return results, the token list they build and
  the rows it is passed on to, together.

**Around the cores:** `LinkedList.dfy` (the sentinel list behind every queue),
`DmaChain.dfy` (descriptor chains), `PageAllocator.dfy` (the alternative page
allocator), `RandomDag.dfy` (the graph generator) and `ActorGraph.dfy` (filling the
slots of actors). The last two end in a graph that satisfies the assumptions of
every scheduler theorem.

Assumptions. Handlers and turns of `actor_check` do not interrupt each other. Each
firing is loaded, computed and returned once, in that order, and each block reports
idle once. A fresh FIFO has both pointers at zero, as `edge_make` relies on. Every
actor has an input and an output and its slots have no gaps. An actor is created
before its successors. A graph is static when every task returns all of its results.
`malloc` never returns NULL to the scheduler: `create_node`, `alloc_result` and
`packet_input` do not test it. When a visit of the drain frees the first node of the
linger list, `traverse` reads the link of that node after it was freed
(`src/linked_list.c:62-66`, `dma/transfer_callback.c:59-63`); the model takes the link
as intact, because `free` overwrites only offsets 0 and 4 of such a payload, where the
links of a free block lie, and `next` is at offset 8.

What is true of the code as written but not of its intent:

- `fifo_size` tests an unsigned value for being negative, so it is right exactly
  while the pointers have not wrapped (`SizeIsExact`), and every full wrapped FIFO
  loses all its tokens on the next put (`WrappedFullIsEmptied`). Neither happens in
  a run: `RunConservesTokens`.
- The drain loop of `result_deliver` compares blocks, removes the newest linger
  instead of the one it found and repeats until the list is empty. `DrainEndsIff`
  says exactly when it ends, `DrainInOrderIff` exactly when it delivers the results
  in firing order. Both conditions can be read off the two lists before the call.
  Two runs of the program break them: after one the loop never ends (`DrainHangs`);
  after the other, where two results come from one block, it ends but swaps them
  (`DrainSwaps`). With at most two packets neither can happen, and the program
  injects one (`include/task.h:5`): `WrittenRunsComplete`. Its runs are then
  exactly the runs that are meant (`TwoPacketRuns`). The theorems of
  `SchedulerRuns`, `Determinacy` and `RefCounts` are about the drain that is meant,
  which passes results on while the oldest firing's is there; `OrderedRunIsRun` says
  that the program as written makes these runs as long as the lists are in order.
- In a dynamic graph a pseudo token is forwarded at once, so it overtakes the
  actor's firings that are ready or under way (`PseudoKeepsPlaceIff`,
  `PseudoOvertakes`), and the real tokens a pseudo task takes are dropped without
  giving up their shares (`PseudoKeepsCountsIff`, `PseudoLeaks`). Both happen in runs
  of the program as written with one block and one or two packets.
- The page allocator's scan stops at an unsigned difference, so a request for more
  pages than there are scans past the table (`ScanStaysInTable`).
- `search` in the linked list begins at the head sentinel, whose item is 0, so
  searching for 0 finds the sentinel whatever the list holds. `Search` ensures that
  the answer is the first node with the key if and only if the key is not 0;
  `SearchZero` is a list with such a node that is not found.
- `generate_dag.py` writes calls of an older `edge_make` without result and slot
  numbers. `BuildDag` takes result row 0 and the next free input slot, and
  says exactly when the slots suffice: with up to twelve nodes always.

## Model

| member | source | states |
|---|---|---|
| BoundaryTag.MaskedSizeIs | src/mem_block.c:72 | the size mask clears exactly the three low bits of any word |
| BoundaryTag.StoreSizeIs | src/mem_block.c:75 | the masked store of a size is the size plus the three low bits that were there |
| BoundaryTag.StoreUsedIs | src/mem_block.c:79 | the masked store of the allocated bit replaces bit 0 only |
| BoundaryTag.SizeFieldReadsBack | src/mem_block.c:72-77 | a stored size reads back and leaves the allocated bit and both reserved bits as they were |
| BoundaryTag.UsedFieldReadsBack | src/mem_block.c:72-79 | a stored allocated bit reads back and leaves the size and the reserved bits as they were |
| BlockLayout.AlignedPayloadGap | src/mem_alloc.c:255-275 | a descriptor that is not aligned moves up by 8 to 56 bytes, so a back-pointer fits below it |
| BlockLayout.RequestIsRoomy | src/mem_alloc.c:130-138 | the block size computed for a request leaves room for both tags and all the bytes asked for, placed at any header |
| HeapEffects.BytesSizeIsLeast | src/mem_alloc.c:130-138 | the block for n bytes is the least multiple of 8 that is at least 16 and leaves n bytes between the tags |
| BlockLayout.DescriptorSize | src/mem_alloc.c:245-268 | a descriptor's block is a multiple of 8 between 72 and 128 bytes, however the payload is aligned |
| BlockLayout.InitialInOrder | src/mem_alloc.c:10-72 | the heap starts well formed: one free block, one ring member |
| BlockLayout.AllocateKeepsOrder | src/mem_alloc.c:74-165 | a request keeps the blocks tiling the heap with sizes multiple of 8 and at least 16, the topmost block free, no two free blocks adjacent, and the ring exactly the free blocks |
| BlockLayout.SplitKeepsOrder | src/mem_alloc.c:74-128 | cutting any fitting block keeps the same invariant |
| BlockLayout.ReleaseKeepsOrder | src/mem_alloc.c:167-243 | giving back any held block keeps the same invariant, whichever neighbours are free |
| BlockLayout.RingIsShort | src/mem_alloc.c:138-165 | the ring is never longer than the heap has room for blocks, so the counter does not overflow |
| HeapWords.InsertLinks | src/mem_free.c:26-56 | four writes make a doubly linked cycle with the new block at its head from any nonempty cycle |
| HeapWords.DeleteLinks | src/mem_free.c:58-82 | two writes make a doubly linked cycle without the removed block |
| HeapWords.LinkWritesAreHarmless | src/mem_free.c:18-82 | writing links of free blocks touches no tag, sentinel, back-pointer or held payload |
| HeapWords.SplitInMemory | src/mem_alloc.c:74-128 | after the split's writes memory carries the tags of the new layout |
| HeapWords.DescriptorInMemory | src/mem_alloc.c:245-282 | the back-pointer written below a moved descriptor makes memory represent the layout with that descriptor |
| HeapWords.ReleaseInMemory | src/mem_alloc.c:167-243 | once the merged block's two tags are written, memory carries the tags of the released layout |
| HeapWords.NeighbourTags | src/mem_alloc.c:180-200 | the words above and below a held block tell the status of both neighbours, sentinels included |
| HeapWords.PointerWord | src/mem_alloc.c:284-294 | the word below a held pointer tells by bit 0 whether it is the block's own header or a back-pointer to the true payload |
| Heap.Allocator.HeapInit | src/mem_alloc.c:10-72 | memory represents the initial layout between the aligned bounds, whatever the memory held |
| Heap.Allocator.InitSentinel | src/mem_alloc.c:10-48 | prologue, epilogue and first block are tagged |
| Heap.Allocator.SetBlocksize | src/mem_block.c:75 | one word changes, to the new size and its old low bits |
| Heap.Allocator.SetAllocated | src/mem_block.c:79 | one word changes, in bit 0 |
| Heap.Allocator.GetFooter | src/mem_block.c:85-89 | the footer is at the end of the block given by its header, and 32-bit arithmetic does not wrap |
| Heap.Allocator.GetNextHeader | src/mem_block.c:91-96 | the next header is the end of the block |
| Heap.Allocator.GetPrevHeader | src/mem_block.c:98-104 | the previous header is found from the footer below |
| Heap.Allocator.FreeListInsert | src/mem_free.c:26-56 | the ring gains the block at its head, stays a doubly linked cycle with the counter as its length, and only link words change |
| Heap.Allocator.FreeListDelete | src/mem_free.c:58-82 | the ring loses the block, the head moves on if it was the head, and only link words change |
| Heap.Allocator.MergeFreeBlocks | src/mem_free.c:84-110 | two adjacent free blocks become one; only its two tags change |
| Heap.Allocator.TryAllocWithSplitting | src/mem_alloc.c:74-128 | succeeds exactly if the block is free and leaves at least 16 bytes, and then writes the four tags of the two pieces |
| Heap.Allocator.Malloc | src/mem_alloc.c:130-165 | the new layout and the pointer are those of Allocate, memory represents the layout, every held payload keeps its words |
| Heap.Allocator.MallocLLI | src/mem_alloc.c:245-282 | the same for a 64-byte aligned descriptor |
| Heap.Allocator.Free | src/mem_alloc.c:167-243 | the new layout is Release of the block, memory represents it, every other held payload keeps its words; freeing NULL changes nothing |
| Heap.Allocator.FreeLLI | src/mem_alloc.c:284-294 | the same, given the aligned pointer only |
| HeapRuns.RunKeepsOrder | src/mem_alloc.c:74-294 | the invariant holds in every state of every run, and the ring is never empty |
| HeapRuns.RunRepresents | src/mem_alloc.c:10-294 | in every state of every run, also between a client's stores and the next call, headers, footers, links and back-pointers agree with the layout |
| HeapRuns.WalksAgree | src/mem_block.c:91-104 | the walk up through headers and the walk down through footers undo each other |
| HeapRuns.FullCoalescing | src/mem_alloc.c:167-243 | with nothing held, the heap is the single block of heap_init again |
| HeapRuns.AllocateThenRelease | src/mem_alloc.c:130-294 | giving back what was just allocated restores all blocks, and moves the chosen block to the front of the ring |
| HeapEffects.MallocIs | src/mem_alloc.c:130-165 | with m the least block size for n bytes: a request fails exactly when no free block has m + 16 bytes; otherwise the first in ring order that has gives its m low bytes, its rest becomes a free block at the ring's head, and the others keep their order |
| HeapEffects.DescriptorIs | src/mem_alloc.c:245-282 | the same for a descriptor: the pointer is the first 64-byte boundary in the block, which ends 64 bytes and a footer above it |
| HeapEffects.ReleaseIs | src/mem_alloc.c:167-243 | the block and its free neighbours become one free block at the ring's head, whichever neighbours are free; the other ring members stay in their order |
| HeapRuns.FirstFitOrNothing | src/mem_alloc.c:138-165 | the same for either kind of request: refused exactly when no free block can be cut for it, else the first in ring order is |
| HeapRuns.SmallBlocksAddUp | src/mem_alloc.c:138-165 | between held blocks there is at most one free block, which bounds fragmented memory |
| HeapRuns.EnoughFreeMemorySuffices | src/mem_alloc.c:130-165 | a request succeeds whenever the free bytes reach (held blocks + 1) times n rounded up to 8 plus 24, never below 32, or times 144 for a descriptor |
| HeapRuns.HeldMemoryIsPrivate | src/mem_alloc.c:130-294 | held memory is 8-aligned (a descriptor 64-aligned), at least as large as asked for, and disjoint up to the block's footer from other clients, all tags and all links |
| HeapRuns.ClientWriteKeepsHeap | src/task_callback.c:47-56 | a client's store anywhere from its pointer to its block's footer, the rounding included, leaves all of the allocator's words intact |
| HeapRuns.PayloadIsRecovered | src/mem_alloc.c:284-294 | after any run free_LLI recovers the true payload of a descriptor |
| HeapRuns.HeldBlockStays | src/mem_alloc.c:130-294 | no operation but its own release moves or resizes a held block |
| HeapRuns.PayloadSurvives | src/mem_alloc.c:130-294 | over any run a held block keeps every word its owner stored, whatever the others do |
| HeapClient.Perform | src/mem_alloc.c:130-294 | any call or store the program allows makes its step of a run |
| HeapClient.RunAll | src/mem_alloc.c:10-294 | any list of calls and stores on a fresh heap is a run, so every theorem about runs holds of it |
| TokenFifo.SizeIsExact | src/fifo.c:14-20 | fifo_size is the occupancy if and only if the pointers have not wrapped |
| TokenFifo.PutIsEnqueue | src/fifo.c:30-38 | put_token is insertion into a queue of capacity eight if and only if the FIFO is not both wrapped and full |
| TokenFifo.WrappedFullIsEmptied | src/fifo.c:14-38 | every full FIFO whose pointers have wrapped is empty after one put |
| TokenFifo.PutLosesTokens | src/fifo.c:14-38 | such a FIFO with eight tokens, all of them lost |
| TokenFifo.DropIsDequeue | src/fifo.c:50-58 | get_token removes the oldest token, wrapped or not |
| TokenFifo.PutAllKeepsFirstEight | src/fifo.c:30-38 | any number of puts into a fresh FIFO keep the first eight tokens in order |
| TokenFifo.TokenRing.PutToken | src/fifo.c:30-38 | the bytes and the array end up as Put says |
| TokenFifo.TokenRing.GetToken | src/fifo.c:50-58 | the bytes end up as Drop says; the oldest token comes out, or none if empty |
| TokenFifo.TokenRing.FifoSize | src/fifo.c:14-20 | the byte difference of the pointers |
| Dataflow.DropRowAt | src/fire_check.c:60-66 | popping a row of FIFOs pops each of them once and no other |
| Dataflow.PutRowAt | dma/transfer_callback.c:30-43 | one result's token goes once to each FIFO of its row and to no other |
| Dataflow.PutResultsAt | dma/transfer_callback.c:27-53 | each FIFO of result row i gets token i if there is one, else a pseudo token |
| Dataflow.ConsumeFifos | src/fire_check.c:49-125 | making an actor ready pops its inputs, and feeds its outputs only for a pseudo task |
| SchedulerEffects.EntryIffSlotZeroReal | src/fire_check.c:49-83 | an actor with a token on every input gets an entry exactly if the token in slot 0 is real; the entry has the data of all its real tokens, in slot order |
| SchedulerEffects.SweepJoins | src/fire_check.c:101-139 | new entries join the ready list behind the old ones, in creation order of their actors |
| TokenFlow.FlowBounds | src/fire_check.c:19-26 | an actor never takes more than it was given nor passes on more than it took, and is ready exactly if all inputs hold a token |
| TokenFlow.NoFifoWraps | src/fifo.c:14-20 | with at most eight packets no FIFO wraps, so fifo_size is exact |
| TokenFlow.SuccessorsNeverBlock | src/fire_check.c:29-41 | the test for full successors never holds back a ready actor |
| TokenFlow.ConsumeKeepsFlow | src/fire_check.c:49-125 | making an actor ready keeps every conservation law |
| TokenFlow.SweepActorTouchesOnly | src/fire_check.c:108-126 | the inner loop ends with its actor not ready and touches only that actor's edges |
| TokenFlow.SweepIsFixpoint | src/fire_check.c:101-139 | after one sweep in creation order no actor satisfies the fire rule |
| SchedulerEffects.SelectIsPreferred | src/fire_check.c:141-152 | if the actor the block ran last has an entry, its oldest is selected, else the oldest of all |
| SchedulerEffects.CheckHandsOut | src/fire_check.c:141-245 | the block that has been idle longest takes that entry, which alone leaves the ready list and becomes its actor's newest firing |
| SchedulerInvariants.ReadyOfRemove | src/fire_check.c:141-152 | the entry that is selected is the oldest of its actor, and the rest keep their order |
| SchedulerInvariants.HandOutBlocks | src/fire_check.c:205-245 | giving out work keeps one firing per busy block and the idle queue exact |
| SchedulerInvariants.ArriveBlocks | dma/transfer_callback.c:82-115 | an arrival keeps the linger list exactly the early results and frees the block |
| SchedulerInvariants.ReleaseFlow | dma/transfer_callback.c:20-68 | passing on a result keeps every conservation law |
| SchedulerInvariants.ReleaseBlocks | dma/transfer_callback.c:55-67 | passing on a result keeps the lists and the blocks consistent |
| SchedulerEffects.IdleBlockQueues | src/task_callback.c:134-138 | a block that reports idle joins the queue at its end |
| SchedulerEffects.InterruptReturns | src/task_callback.c:14-132 | a block at work that returns ret results adds min(ret, rows) data cells, cell i with result i, its value and its row's fan-out; only its firing's stage changes besides |
| SchedulerEffects.LoadDelivers | dma/transfer_callback.c:117-136 | a load gives the firing the values of its entry's data in order, in every graph |
| SchedulerEffects.ResultArrives | dma/transfer_callback.c:82-108 | an arriving result frees its block, which keeps its last actor; out of order it only joins the head of the linger list |
| ResultRows.RunFillsRows | dma/transfer_callback.c:20-68 | in any run of any graph: when the firing that returned ret results is passed on, the edges of row i get its result i exactly if i < ret and a pseudo token exactly if not, at its place behind what was there |
| SchedulerRuns.ResultFlag | dma/transfer_callback.c:178-201 | the result flag tells load transfers from result transfers |
| SchedulerRuns.OldestArrives | dma/transfer_callback.c:92-100 | comparing blocks decides whether the arriving result is the oldest firing's |
| SchedulerRuns.NextKeepsInv | src/fire_check.c:101-245 | every event, in any order, keeps conservation, one firing per busy block, exact idle and linger lists, and no actor left to be made ready |
| SchedulerRuns.NextLowersRank | src/task_callback.c:123-139 | every event lowers a natural measure |
| SchedulerRuns.RunsAreFinite | src/fire_check.c:221-245 | a run has at most five events per firing and four per block |
| SchedulerRuns.RunConservesTokens | src/fire_check.c:101-135 | in every reachable state edges and actors conserve tokens, FIFO sizes are exact, and no actor could fire |
| SchedulerRuns.Completion | src/fire_check.c:101-245 | with no event left every actor has fired once per packet and every edge has carried and delivered all tokens |
| SchedulerRuns.EveryRunCompletes | src/actor_init.c:50-56 | from launch on, any graph, packets, number of blocks and order of events: the run is finite and cannot stop before all packets are through |
| SchedulerRuns.InjectKeepsEight | src/actor_create.c:56-69 | the first eight packets enter the root's input in order, the rest are discarded |
| SchedulerRuns.StartInv | src/actor_init.c:46-56 | the invariants hold once the packets are in and the first sweep is made |
| LingerDrain.DrainEndsIff | dma/transfer_callback.c:70-112 | the written loop ends if and only if at each removal one of the lingers left is on the block of the firing whose turn it is |
| LingerDrain.DrainInOrderIff | dma/transfer_callback.c:59-112 | it passes on the next firings' results in firing order if and only if the linger list, newest first, is those firings in that order |
| LingerDrain.ReleasedAreFirstFound | dma/transfer_callback.c:70-112 | whenever the loop ends, it has passed on for each firing in turn the first linger on that firing's block that the walk meets, going on where the last was found and round from the head |
| LingerDrain.DistinctBlocksDrain | dma/transfer_callback.c:70-112 | while the waiting firings were on different blocks it either does that or never ends |
| LingerDrain.WaitingBehindOldest | dma/transfer_callback.c:92-115 | between events lingering results belong to firings behind the oldest, each once, and there are no more of them than firings |
| LingerDrain.TwoPacketsInOrder | include/task.h:5 | with at most two packets the lists are always in order |
| WrittenHandler.PassResultFlow | dma/transfer_callback.c:20-68 | whatever results it passes on, in whatever order, the written handler keeps every conservation law |
| ResultRows.WrittenDeliveryFills | dma/transfer_callback.c:20-115 | every delivery by the program as written puts on every edge of the actor the tokens of the firings it passes on, each firing's own, in the order of the drain |
| WrittenHandler.WrittenDrainIffInOrder | dma/transfer_callback.c:92-115 | in every state between events: exactly when the written handler returns, exactly when it delivers in order, and that it then leaves the state that is meant |
| WrittenHandler.OrderedRunIsRun | dma/transfer_callback.c:92-201 | runs of the program as written, as long as deliveries meet lists in order, are the runs that are meant |
| WrittenHandler.TwoPacketRuns | dma/transfer_callback.c:92-201 | with at most two packets the runs of the program as written are exactly the runs that are meant |
| WrittenHandler.WrittenRunsComplete | src/actor_init.c:25-56 | with at most two packets, so with the one injected, the program as written never hangs in a handler, every run is finite and it completes |
| DrainExamples.DrainHangs | dma/transfer_callback.c:110-112 | a run of the program as written after which the next delivery never returns |
| DrainExamples.DrainSwaps | dma/transfer_callback.c:70-80 | a run of the program as written after which the next delivery returns with two results swapped, both from the same block: the out-edge then carries the results of firings 0, 2 and 1 |
| Determinacy.ConsumeTakes | src/fire_check.c:49-83 | a ready entry holds the next token of every input, in slot order |
| Determinacy.HandOutFaithful | src/fire_check.c:141-152 | firings keep the order of the tokens they took, affinity or not |
| Determinacy.LoadsRefArgs | src/fire_check.c:167-195 | a load delivers the arguments the graph determines |
| Determinacy.ReleaseFaithful | dma/transfer_callback.c:20-68 | the k-th token of every out-edge is the result of firing k |
| Determinacy.NextFaithful | dma/transfer_callback.c:92-201 | every event of a static graph keeps every value right |
| Determinacy.EdgesCarryReference | src/fire_check.c:101-245 | in any run the k-th token of an edge is real and has the value computed from the graph and packet k alone |
| Determinacy.RunsAgree | src/fire_check.c:141-152 | two runs with different blocks and orders of events agree on every token |
| Determinacy.FinishedRunComputesGraph | src/actor_init.c:50-56 | a finished run has put the reference value of every packet on every edge |
| RefCounts.RecycleCounts | dma/transfer_callback.c:117-136 | walking a token list lowers each count by its tokens in the list, frees at zero, and never touches a freed cell |
| RefCounts.FreshResults | src/task_callback.c:77-83 | a new cell starts with one share for every FIFO of its row, however many results were returned |
| RefCounts.ReleaseShares | dma/transfer_callback.c:27-53 | passing on a result turns its shares into tokens, none more or less |
| RefCounts.NextCounted | src/task_callback.c:14-139 | every event of every graph keeps every count equal to the number of tokens, up to those its sweep drops |
| RefCounts.CountsAreTokens | dma/transfer_callback.c:117-136 | in every reachable state of every graph a cell's count is the number of its tokens that exist, are to come, or were dropped by pseudo tasks, and it is freed exactly if there is none |
| RefCounts.LoadsAreLive | dma/transfer_callback.c:117-136 | in every graph no load gives up data that is already freed |
| RefCounts.FreedWithLastToken | dma/transfer_callback.c:117-136 | a cell is freed by exactly the step that uses up its last token, which is a load, and stays freed; it is never freed if a token was dropped |
| RefCounts.DroppedStays | src/fire_check.c:51-58 | a cell that lost a token is never freed, however the run goes on |
| RefCounts.OnlyOutputsRemain | dma/transfer_callback.c:117-136 | at the end of a run the data still allocated is exactly what waits on edges nobody reads and what lost a token |
| RefCounts.PseudoKeepsCountsIff | src/fire_check.c:51-58 | making an actor ready keeps the counts right if and only if it is no pseudo task or takes no real token |
| RefCounts.StaticRunsDropNone | src/fire_check.c:51-58 | in static graphs no token is ever dropped |
| DynamicGraphs.PseudoKeepsPlaceIff | src/fire_check.c:118-125 | a pseudo firing keeps its place on the actor's out-edges if and only if none of the actor's firings is ready or under way |
| PseudoExamples.PseudoOvertakes | src/fire_check.c:118-125 | a run of ten events of the program as written, one block, two packets, after which the pseudo token of firing 1 has taken place 0 while firing 0 is still ready |
| PseudoExamples.PseudoLeaks | src/fire_check.c:51-58 | a whole run of the program as written, one block, one packet, that drops the only token of a cell: at its end the cell is not freed and no output holds it |
| WrittenRuns.LaunchedIsRun | src/actor_init.c:50-56 | with at most two packets the runs from the launch of the program as written are the runs that the other theorems are about |
| WrittenRuns.WrittenRunComputesGraph | src/actor_init.c:50-56 | a finished run of the program as written has put the value that a static graph and packet k determine on every edge |
| WrittenRuns.WrittenRunsAgree | src/fire_check.c:141-152 | two runs of the program as written agree on every token, whatever the blocks do |
| WrittenRuns.WrittenRunLeavesOutputs | dma/transfer_callback.c:117-136 | at the end of such a run the data still allocated is exactly what waits on edges nobody reads |
| TokenShares.DropRowTokens | src/fire_check.c:60-66 | tokens that leave a row of FIFOs are those the entry holds |
| TokenShares.PutResultsTokens | dma/transfer_callback.c:27-53 | results become one token for each FIFO of their rows, and pseudo tokens stand for no data |
| ActorScheduler.Scheduler.ActorReady | src/fire_check.c:19-26 | true exactly if every input holds a token |
| ActorScheduler.Scheduler.SuccessorFull | src/fire_check.c:29-36 | true exactly if every successor FIFO is full |
| ActorScheduler.Scheduler.ReadyCreate | src/fire_check.c:49-83 | every input loses its head; a pseudo task has no entry, any other holds the real heads in slot order |
| ActorScheduler.Scheduler.PutTokens | dma/transfer_callback.c:27-53 | the nested loops put exactly what PutResults says |
| ActorScheduler.Scheduler.MakeAllReady | src/fire_check.c:108-126 | the inner loop terminates in the state SweepActor describes |
| ActorScheduler.Scheduler.ReadySearch | src/fire_check.c:101-139 | the whole search terminates in the state Sweep describes |
| ActorScheduler.Scheduler.ReadySelect | src/fire_check.c:141-152 | the oldest entry of the block's last actor if it has one, else the oldest of all |
| ActorScheduler.Scheduler.ActorCheck | src/fire_check.c:221-245 | one turn hands the preferred entry to the longest idle block, as the Check event does, or does nothing when there is no idle block or no entry |
| ActorScheduler.Scheduler.AllocResult | src/task_callback.c:14-121 | min(ret, rows) new cells, one per returned result, with its value, origin and fan-out |
| ActorScheduler.Scheduler.BlockHandler | src/task_callback.c:123-139 | the handler is the Interrupt event |
| ActorScheduler.Scheduler.RecycleGarbage | dma/transfer_callback.c:117-136 | the loop is Recycle |
| ActorScheduler.Scheduler.PassResult | dma/transfer_callback.c:20-68 | the token list goes out from its tail, the oldest firing and the newest linger go, and the next expected block is the oldest firing's |
| ActorScheduler.Scheduler.CheckIfDone | dma/transfer_callback.c:70-80 | one visit of the walk, by block |
| ActorScheduler.Scheduler.DrainLingers | dma/transfer_callback.c:110-112 | the nested loops, if they end at all, terminate in the state that the walk determines |
| ActorScheduler.Scheduler.LingerInsert | dma/transfer_callback.c:82-90 | the result joins the linger list |
| ActorScheduler.Scheduler.ResultDeliver | dma/transfer_callback.c:92-115 | out of order the result only lingers; in order it and then the lingers in the order of the walk are passed on |
| ActorScheduler.Scheduler.TransferDoneHandler | dma/transfer_callback.c:178-201 | the handler is the event as written, and the TransferDone event that is meant whenever the lists are in order |
| ActorScheduler.Scheduler.PacketInput | src/actor_create.c:56-69 | a packet enters the root's input unless it is full |
| ActorScheduler.Scheduler.Launch | src/actor_init.c:50-56 | launching reaches the start state, where the invariants hold |
| ResultTokens.CallReachesRow | dma/transfer_callback.c:25-46 | passing on a list that holds the calls' tokens newest first gives every edge of row i the token of call i, else a pseudo token |
| ResultTokens.ReturnAndPass | src/task_callback.c:35-121 | the calls that return results, the chain they build and passing on its token list together: every edge of row i gets the token of the i-th call |
| LinkedList.List.constructor | src/linked_list.c:5-19 | two linked sentinels and no node |
| LinkedList.List.Insert | src/linked_list.c:48-53 | the node becomes the first, all others stay, links agree both ways |
| LinkedList.List.DeleteNode | src/linked_list.c:56-59 | exactly that node leaves, links agree both ways |
| LinkedList.List.Search | src/linked_list.c:39-45 | the head sentinel exactly for key 0; the list's first node with the key, or null if there is none, exactly for every other key |
| LinkedList.SearchZero | src/linked_list.c:39-45 | a list whose one node holds 0 answers the search for 0 with its sentinel |
| LinkedList.List.ReadLast | src/linked_list.c:98-104 | the oldest node, or null if the list is empty |
| LinkedList.List.ReadFirst | src/linked_list.c:89-95 | the newest node, or null if the list is empty |
| LinkedList.List.IsEmpty | src/linked_list.c:107-113 | true exactly if no node is left |
| LinkedList.List.DestroyList | src/linked_list.c:69-80 | every node is visited once |
| LinkedList.DeleteLastIsDequeue | src/linked_list.c:56-59 | removing the last node takes the oldest item off the queue |
| LinkedList.Enqueue | src/linked_list.c:48-53 | inserting at the head appends to the queue |
| LinkedList.Dequeue | src/linked_list.c:98-104 | reading and deleting the last node returns the oldest item |
| DmaChain.ChunksSum | dma/dma.c:138-160 | for every length the block sizes of a call's descriptors add up to the length in words of eight bytes |
| DmaChain.ChunkSizes | dma/dma.c:137-178 | every descriptor of a call but the last moves 2048 words, the last what is left |
| DmaChain.LastChunkEmpty | dma/dma.c:106-113 | the last descriptor moves nothing exactly when less than a word is left over, as for every multiple of 16384 bytes |
| DmaChain.AllChunksSum | dma/dma.c:106-182 | all descriptors of a sequence of calls move every whole word of every transfer |
| DmaChain.FollowVisitsChain | dma/dma.c:106-182 | following the links from the head visits every descriptor once, in order, and stops at the self-link |
| DmaChain.Linker.SetupChunks | dma/dma.c:137-178 | one call appends its chunks to the chain and ends it with a self-link |
| DmaChain.Linker.TransferLink | dma/dma.c:106-182 | a call extends the open chain, or closes it and hands over its head, the block and the tokens, newest first; other descriptors stay |
| DmaChain.Linker.TransferAll | src/fire_check.c:167-195 | a whole sequence of calls hands over one chain: followed from its head it visits every descriptor once in order and stops, only the last is marked LAST, together they move every whole word of every transfer, and the token list, read from its last element, is the given tokens in call order |
| PageAllocator.DecodingIsUnique | src/falloc.c:26-54 | the flags alone determine which runs of pages are live |
| PageAllocator.TakeRepresents | src/falloc.c:108-120 | taking a gap adds one run that overlaps no other |
| PageAllocator.ClearRepresents | src/falloc.c:137-151 | clearing a run removes exactly that allocation |
| PageAllocator.MallocThenFree | src/falloc.c:86-152 | malloc and free of its result restore every flag and the live allocations |
| PageAllocator.PagesHold | src/falloc.c:88 | the pages taken hold the bytes asked for, and one page less would not |
| PageAllocator.ScanStaysInTable | src/falloc.c:90 | the scan stays in the table if and only if the request is for no more pages than there are |
| PageAllocator.Pages.Malloc | src/falloc.c:86-125 | the lowest gap of enough pages is taken and flagged, or there is none and nothing changes; every byte asked for is in the new run and in no other live run |
| PageAllocator.Pages.Free | src/falloc.c:131-152 | from the start pointer alone exactly the pages of that run are cleared; NULL and pointers past the end change nothing |
| PageAllocator.Pages.constructor | src/falloc.c:64-80 | all pages are free and the pool starts at a page boundary |
| RandomDag.Generate | task/generate_dag.py:14-48 | whatever the choices and the number of nodes: forward edges, no duplicates, true degrees, a predecessor for all but the root, a successor for all but the sink, and every edge chosen or a needed repair |
| RandomDag.AddRandomEdges | task/generate_dag.py:20-34 | only chosen pairs, never entrance to exit, no degree over four, and a chosen pair is missing only if a degree is at four |
| RandomDag.RootReaches | task/generate_dag.py:35-41 | every node is reachable from the root |
| RandomDag.ReachesSink | task/generate_dag.py:42-48 | every node reaches the sink |
| RandomDag.DegreesFit | task/generate_dag.py:20-48 | a node has at most its earlier nodes as predecessors and its later ones as successors |
| ActorGraph.FinishedGraph | src/actor_create.c:6-82 | pointers that agree with the edges and leave no gaps give a graph as the scheduler needs it |
| ActorGraph.ConnectKeepsIns | src/actor_create.c:23-53 | a new edge keeps every input slot in agreement with the edges |
| ActorGraph.ConnectKeepsOuts | src/actor_create.c:27-53 | a new edge keeps every output slot in agreement with the edges, also when the row is full |
| ActorGraph.Builder.NodeMakeOut | src/actor_create.c:27-37 | the first unused slot, or none |
| ActorGraph.Builder.EdgeMake | src/actor_create.c:43-53 | the given input slot and the first free slot of the row hold the new FIFO, all others stay, and success exactly if there was one |
| ActorGraph.Builder.AssignRoot | src/actor_create.c:72-75 | slot 0 becomes the root's input, whatever was there |
| ActorGraph.Builder.AssignSink | src/actor_create.c:78-82 | row 0, slot 0 becomes the sink's output, whatever was there |
| ActorGraph.CloseGraph | src/actor_create.c:72-82 | a repaired edge list with root and sink assigned is a finished graph |
| ActorGraph.WireNext | src/actor_create.c:43-53 | an edge_make of the generated program succeeds if and only if fewer than eleven earlier edges end at its head and start at its tail |
| ActorGraph.BuildDag | task/generate_dag.py:50-64 | an edge list of any size is built without a failure if and only if no degree exceeds eleven, and then gives a finished graph with exactly these edges |
| ActorGraph.RandomTask | task/generate_dag.py:14-64 | whatever the random choices and the number of nodes: the slots suffice exactly if no degree exceeds eleven, always with up to twelve nodes, and then the graph meets the assumptions of every scheduler theorem |

## Left out

- SchedulerRuns.EveryRunCompletes: about the drain that is meant; WrittenHandler says for the program as written when the two agree, and that they do with at most two packets. What a run of three or more packets does after a delivery that met lists out of order is not followed further.
- Determinacy.EdgesCarryReference: static graphs only; PseudoExamples shows how a pseudo token can overtake a real one, after which places in the order mean nothing.
- ActorScheduler.Scheduler.ResultDeliver: requires that the drain ends, by the exact condition of LingerDrain; flags are cleared when the result arrives rather than at the end of the same handler.
- ActorScheduler.Scheduler.TransferDoneHandler: freeing the descriptor chain is left out. Its loop reads the head's link again and frees at most two descriptors.
- ActorScheduler.Scheduler.AllocResult: the number of returned results is a parameter; several batches of results are overridden to one in the source and are not modelled.
- ActorScheduler.Scheduler.RecycleGarbage: a token without a data cell is skipped; LoadsAreLive shows that there is none.
- Heap.Allocator.Malloc: sizes of 0 and beyond the heap, which the source asserts away, are excluded; so are frees of pointers that are not held.
- PageAllocator.Pages.Malloc: a request for more pages than exist, which size 0 is, reads memory behind the table; ScanStaysInTable says exactly when, and it is excluded.
- ActorGraph.WireNext: stops when the eleven input slots of an edge's head are taken, where the source indexes past the array before it could assert.
- ActorGraph.Builder.EdgeMake: the free input slot that the source asserts is a precondition.
- DmaChain.Linker.SetupChunks: one loop stands for the source's two, which differ in the LAST bit; source and destination addresses and the control word are not modelled.
- The single-cell `queue_t` for idle blocks: an ideal queue stands for it.
- The data cell that a discarded packet leaves allocated.
- Code split into helper methods for the proofs (for instance `CutBlock`, `FreeAlone`, `MakeReady`, `OpenLink`) is one function in the source.
- Repeated interrupts of one block, and vector tokens.
- Preemption inside a handler or a partly built chain.
- DMA registers and channel choice, block simulation, interrupts, traps, UART, printf and the string helpers.
- `insert_before` in the linked list, which nothing here calls, and `traverse`, whose one use is in ActorScheduler.
