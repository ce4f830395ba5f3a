# A verified model of the ELCRQ queue and its shared-memory allocator

This project models, in Dafny, the four parts of the repository whose correctness is not
visible from reading them, and proves what they are for.  `dafny verify dfyconfig.toml` checks it.

**The queue** (`c++/LCRQueue.hpp`).  `Ring.dfy` has one ring, its cells `(val, idx, unsafe)`, the two
ticket counters, the closed bit, and what each atomic access does to them.  `Queue.dfy` has the whole
queue as a transition system: any number of threads, each with a program counter and the locals that
are live there, and one transition per load, fetch-and-add, CAS, CAS2 or bit-test-and-set.  Index and
value of a cell are loaded in separate transitions.  The ring size is any number above zero.  The
records also carry history that no access reads: who drew which ticket, what was deposited and
delivered under it, which tickets were abandoned, when enqueues began and ended.  `Invariant.dfy` and
`Preserve.dfy` prove one inductive invariant; `Theorems.dfy`, `Accesses.dfy`, `Flip.dfy` and
`Solo.dfy` draw the consequences for all runs.  `Linear.dfy` proves the queue linearizable, over
`Tickets.dfy`, which follows tickets through a run, and `Histories.dfy`, which says what a legal
history of a first-in first-out queue is; what an operation is in that history is fixed by its
invocation and its return.  `Causes.dfy` says why rings are closed and cells are skipped.
`Livelock.dfy` shows that the queue is not lock-free.  `Words.dfy` ties the packed 64-bit words to
the numbers and flags of the model.

**Reclamation** (`c++/HazardPointers.hpp` as the queue uses it).  `Reclaim.dfy` puts the heap under
the queue: addresses that are used again after a free, one announcement slot and one retired list per
thread, the announcing store, the validating load, and the slot-by-slot scan of `retire`, each a
transition of its own.  `Retirement.dfy` shows that no ring is lost and what a scan leaves in the list;
`HeapSolo.dfy` is solo termination of that machine.

**Blocking** (`c++/SCRQueue.hpp`, `c++/EventCount.hpp`).  `Events.dfy` has the packed event word and
the futex; `Blocking.dfy` the producers and consumers of the blocking queue over an atomic queue;
`Await.dfy` the clients of `await`, whose condition may throw.  The futex sleeps only if the epoch half
of the word still equals the key, wakes at most as many as asked, and may wake spuriously.

**The allocator** (`c/malloc.c`).  These are sequential programs under locks and are written as
imperative code.  `PageSort.dfy` is the in-place merge sort of page descriptors; `FreePages.dfy` the
list of lists of free extents with its back-links; `Extents.dfy` the page table with `free_pages`,
`free` of whole pages, `mresize` and `alloc_pages`; `Classes.dfy` the size classes; `Chunks.dfy` and
`Pool.dfy` the chunk allocator of one size class with the caches of any number of threads, its lists
threaded through the memory of the chunks.  `Overflow.dfy` is a run of it in which a 16-bit counter
wraps.  `Allocator.dfy` puts the two layers together: the pages of chunks come from the page allocator on
demand and go back to it.  `Codes.dfy` has the page codes that both use.

Assumptions: memory is sequentially consistent; tickets and indexes stay below 2^63; items are not
null; each thread uses its own thread id; one enqueue does not fail to close a ring 2^31 times; fewer
than 2^32 threads use one event count; no key is held over 2^32 or more notifications (only for the
wake-up result); page numbers and sizes in pages stay below 2^31.  Overflow of a product of ints, which
C leaves undefined, is taken to wrap around.

## What turned out not to hold

- *A CAS2 that succeeds finds the cell unchanged since the thread loaded `val`.*  True of every CAS2
  on an empty cell (`Accesses.EnqueueCas2`, `Accesses.SkipCas2`: even since the earlier load of
  `idx`).  On an occupied cell the item and the index are always unchanged, and the whole cell is
  if and only if the loaded index word has the unsafe bit clear or the cell has it set when the item is
  loaded (`Accesses.OccupiedExactly`).  What the thread itself can tell: a clear bit in its index word is
  enough (`Accesses.OccupiedCas2`), and so is a cell that was occupied already when that word was loaded
  (`Accesses.OccupiedSinceIdx`).  `Flip.UnsafeBitMayChange` is a run of a ring of two cells in which a deposit clears it
  and another dequeuer sets it again.  This is harmless, because what the CAS2
  does depends only on the item and the index.
- *Enqueue and dequeue are lock-free* (c++/LCRQueue.hpp:47-48).  For every ring size there is a run in which
  one enqueuer and one dequeuer can go on for any number of accesses without either completing, and with
  nobody else about (`Livelock.NotLockFree`): on cells that are empty and unsafe the enqueuer gives up every
  ticket, the dequeuer skips every cell and finds that `tail` has moved on, and the distance of the counters, which alone
  would close the ring, does not grow.  A thread that runs alone does complete (`Solo.SoloTermination`).
- *`alloc_pages` keeps the extent map.*  When it splits an extent it does not shorten `page` of the part it
  hands out.  The map is kept exactly when nothing is requested, some free extent has just the requested
  size, or none is large enough (`Extents.Heap.AllocPages`, `Extents.TakenTiled`); `Extents.CutOffBlock` is a
  concrete split that breaks it.  A cut-off block that is freed takes the rest with it, whether that is on the
  free list or in use (`Extents.CutOffFreed`).  The free side is right in all cases, recording the end of the
  block would be enough, and a page that becomes a page of chunks does no harm, because its descriptor is written
  anew (`Extents.Heap.GetChunkPage`).
- *`count` is the number of entries of a thread's `free` list, and `aux` is empty or has `target` entries.*
  `count` is an unsigned short, and `target` is set only by an allocation, so the list of a thread that only
  frees grows until `count` returns to 0.  Every chunk stays accounted for in all cases, and the counters are
  exact after a `free` if and only if `target` is set or, when `count` is 0, `free` is empty, or, when it is
  not, `count` is below 65535 and `aux` is empty (`Pool.SizeClass.Free`); from exact counters: if and only if
  `target` is set or `count` is below 65535.  `Overflow.ConsumerOverflows` is a run in which they are not.
- *`free` shrinks a heap that ends in the block it has freed.*  The size in bytes is a product of ints, so it
  does so if and only if, besides, the free block has less than 2^19 pages (`Extents.Heap.Free`);
  `Extents.HugeBlockStays` is a heap in which it does not.
- *The heap can be extended from wherever the break is.*  If others have moved the break, the descriptors of the
  gap may be left over from an earlier, larger heap.  The map is kept if and only if they describe extents in
  use (`Extents.Heap.Extend`); it always is when there is no gap.  `Extents.MovedBreak` is a run in which it is
  not: a page is added, freed and given back, others move the break by a page, and the heap is extended.
- *A size class holds the request.*  `SMLIST` takes an int: the class fits what the cast leaves of the size, so
  it holds the request if and only if that is below 2^32 (`Classes.SmlistHolds`, `Classes.CastLosesRequest`).
- *A resized extent has the pages that the request takes.*  The number of pages is cast to an int: it has them if
  and only if that loses nothing, that is up to 2^43 - 4096 bytes (`Extents.PagesForExact`); asked for 2^44 + 4096
  bytes, an extent is cut down to one page (`Extents.CastLosesPages`).
- *Asked for no bytes.*  The bit scan in `SMLIST` (c/malloc.c:86-93) gives -1 for size 0, where the macro
  of the same name in `c/malloc.h` gives the smallest class (`Classes.SmlistLeast`).  So `mresize` of a page
  extent to 0 bytes cuts it to nothing; its inner `free` then unlinks a block that is on no list, or leaves a table
  that is no extent map (`Extents.ResizeToNothing`).  `alloc_pages(0)` returns an extent that stays free.

## Model

| member | source | states |
|---|---|---|
| Rings.Deposited | c++/LCRQueue.hpp:199-207 | the enqueue CAS2 on a cell read as empty, by a thread that holds the ticket and passed the unsafe test, keeps the ring invariant and moves every cell only forward; the ticket was not abandoned |
| Rings.Delivered | c++/LCRQueue.hpp:234-239 | the CAS2 that takes an item keeps the ring invariant, and the item taken is the one deposited under that very ticket |
| Rings.Marked | c++/LCRQueue.hpp:240-242 | setting the unsafe bit on an older item and giving up the ticket keeps the ring invariant |
| Rings.Skipped | c++/LCRQueue.hpp:243-255 | moving an empty cell past the ticket, with its unsafe bit, keeps the ring invariant |
| Rings.Departed | c++/LCRQueue.hpp:232-232 | a dequeuer that finds the cell already past its ticket abandons a ticket under which nothing was deposited |
| Rings.TailDrawn | c++/LCRQueue.hpp:183-184 | fetch-and-add on `tail` gives the thread a ticket of its own while the ring is open, and issues none when it is closed |
| Rings.TailRaised | c++/LCRQueue.hpp:134-137 | the jump of `tail` to `head` keeps the ring invariant and lowers nothing |
| Preserve.StepInv | c++/LCRQueue.hpp:172-275 | every transition of every thread keeps the invariant of rings, list, log and all threads' locals, and changes nothing that another thread relies on |
| Preserve.RunInv | c++/LCRQueue.hpp:172-275 | the invariant holds at the end of every run, for any ring size, any number of threads and any interleaving |
| Preserve.NeverStuck | c++/LCRQueue.hpp:172-275 | in a reachable state every thread inside an operation has its next access, on a ring that exists |
| Theorems.Conservation | c++/LCRQueue.hpp:199-239 | at all times the deposits of a ring are exactly the delivered ones and the ones sitting in their cells, with no overlap, and a delivered item is the deposited one |
| Theorems.NoItemLost | c++/LCRQueue.hpp:226-260 | under a ticket that some dequeuer has given up at any time of the run, nothing is deposited at any time of the run, before or after |
| Theorems.GivenUp | c++/LCRQueue.hpp:232-262 | a dequeuer that has left its cell without an item, whether about to close the ring or to look at `tail`, has given up its ticket |
| Theorems.EnqueueDeposits | c++/LCRQueue.hpp:172-210 | once an enqueue is about to return, the item with which it was invoked has been delivered under its ticket or sits in its cell, and the dequeuer of that ticket has not left and never leaves empty-handed |
| Theorems.InvokedWith | c++/LCRQueue.hpp:172-275 | at every time of an operation its thread has been busy since it was idle at the invocation, and the operation is still the enqueue of that item or the dequeue that was invoked |
| Theorems.DeliveredOnce | c++/LCRQueue.hpp:220-239 | no two deliveries of a run are of the same deposit, and each returns the item deposited |
| Theorems.DeliveredOwn | c++/LCRQueue.hpp:220-239 | every delivery returns the item deposited under the ticket that the thread itself drew from that ring |
| Theorems.HandOff | c++/LCRQueue.hpp:262-272 | once `head` has left a ring, the ring is closed and every item ever deposited in it, earlier or later, has a ticket that was already drawn by then |
| Theorems.NullJustified | c++/LCRQueue.hpp:262-268 | a dequeue about to return null has an instant since its invocation at which every item in every ring had a ticket already drawn |
| Theorems.Fifo | c++/LCRQueue.hpp:172-213 | if one enqueue returned before another was invoked, its (ring, ticket) comes first, and whenever the later item has been delivered the earlier one's ticket is drawn |
| Theorems.NoRecurrence | c++/LCRQueue.hpp:200-204 | a cell's index never falls and stays congruent to the cell, and a cell that is the same at two times was the same in between |
| Linear.Linearizable | c++/LCRQueue.hpp:40-48 | every run is linearizable: the operations under way can be completed without invoking any, and then all operations, enqueues with the items of their invocations and dequeues with what they return, have a total order that extends real-time order and is a legal FIFO history |
| Linear.CompleteRunLinearizable | c++/LCRQueue.hpp:172-275 | in a run whose operations have all completed, the order of the instants at which tickets are issued, issued and drawn, or compared with `tail` is a linearization |
| Linear.ReturnsAsInvoked | c++/LCRQueue.hpp:172-275 | what was invoked as an enqueue of an item returns as the enqueue of that item, and what was invoked as a dequeue returns an item or null |
| Linear.InSpan | c++/LCRQueue.hpp:172-275 | the instant at which an operation takes effect lies between its invocation and its return |
| Linear.TakenInOrder | c++/LCRQueue.hpp:220-239 | whenever an item is taken, every item that took effect before it has been taken, and earlier |
| Linear.TakenBeforeNull | c++/LCRQueue.hpp:262-268 | a dequeue that returns null takes effect when every item that took effect before has been taken |
| Histories.OrderlyIsLegal | c++/LCRQueue.hpp:40-48 | operations that add and take each element once, take what was added, in the order added, and find nothing only when all is taken, replay on a sequential queue with their results |
| Tickets.HeldSince | c++/LCRQueue.hpp:183-220 | the ticket that a thread holds was issued or drawn after its operation was invoked |
| Tickets.IssuedInOrder | c++/LCRQueue.hpp:183-191 | tickets are issued in the order of (ring, ticket) |
| Tickets.DrawnInOrder | c++/LCRQueue.hpp:218-220 | tickets of items deposited at any time are drawn in that order too, across rings |
| Tickets.DrawnAccounted | c++/LCRQueue.hpp:220-260 | at every time a drawn ticket has been delivered, has been given up, or is held by the thread that drew it |
| Accesses.EnqueueCas2 | c++/LCRQueue.hpp:200-204 | an enqueue CAS2 that succeeds finds the cell as it was at every instant since its index word was loaded |
| Accesses.SkipCas2 | c++/LCRQueue.hpp:227-252 | the same for the dequeue CAS2s on an empty cell |
| Accesses.OccupiedCas2 | c++/LCRQueue.hpp:227-242 | a dequeue CAS2 that succeeds on an occupied cell finds the item and index unchanged since the item was loaded, and the whole cell if the loaded index word had the bit clear |
| Accesses.OccupiedExactly | c++/LCRQueue.hpp:227-242 | the whole cell is unchanged from the load of the item to the CAS2 that succeeds if and only if the bit was clear in the loaded index word or set in the cell at that load |
| Accesses.OccupiedSinceIdx | c++/LCRQueue.hpp:227-242 | and the whole cell since the index load, whatever the bit, if the cell was occupied then |
| Flip.UnsafeBitMayChange | c++/LCRQueue.hpp:227-242 | a run in which neither holds and the bit differs between the load of the item and the CAS2 that succeeds |
| Accesses.TailDiscipline | c++/LCRQueue.hpp:183-191 | over any stretch of a run the index of `tail` never falls, the closed bit stays, a closed ring issues no ticket, and only a closed ring has a successor |
| Accesses.TicketsUnique | c++/LCRQueue.hpp:183-184 | no enqueue ticket of a ring is issued twice in a run |
| Accesses.FixStateDone | c++/LCRQueue.hpp:128-141 | `fixState` is left only with the ring closed or `tail` at least a value that `head` had during the call and that is past the caller's ticket |
| Causes.ClosedForCause | c++/LCRQueue.hpp:143-151 | a ring is closed only by an enqueuer whose ticket was a ring's length past `head`, while its ticket was the last one or after it had found rings full ten times in that call; or by a dequeuer that looked more than 200000 times at an empty unmarked cell and had loaded a `tail` above the ring size |
| Causes.ClosesExactly | c++/LCRQueue.hpp:143-151 | after an enqueuer that found the ring full has tried to close it, the ring is closed exactly if it was before, or no ticket was drawn since its own, or it has found rings full ten times in that call |
| Causes.ImpatientCloses | c++/LCRQueue.hpp:251-253 | a dequeuer that lost patience and skipped its cell closes the ring before it does anything else |
| Causes.GivesUpForCause | c++/LCRQueue.hpp:199-211 | an enqueuer gives up a ticket only if, after it loaded the index word of the cell, it found the cell past the ticket, or marked with `head` at the ticket or beyond, or occupied or changed |
| Causes.SkipsForCause | c++/LCRQueue.hpp:243-256 | an empty cell is moved past a ticket only if it is marked, or the load of `tail` made within the last 1024 looks of the visit showed the ticket not issued or the ring closed, or there were more than 200000 looks |
| Causes.LooksForCause | c++/LCRQueue.hpp:243-256 | and a dequeuer looks at an empty cell again only if none of these holds |
| Causes.LooksCount | c++/LCRQueue.hpp:223-256 | since it drew the ticket a dequeuer has gone round the cell loop on an empty cell exactly `r` times, never more than 200001 |
| Causes.TriesCounts | c++/LCRQueue.hpp:173-211 | `try_close` is the number of times this enqueue found a ring full |
| Solo.SoloTermination | c++/LCRQueue.hpp:172-275 | from every reachable state of the queue a thread that runs alone completes its operation |
| Solo.Falls | c++/LCRQueue.hpp:172-275 | the lexicographic measure behind it: each access of a thread that runs alone lowers it (rings ahead, room or backlog in the ring, patience, program point) |
| Livelock.NotLockFree | c++/LCRQueue.hpp:47-48 | for every ring size, a run that can go on for any number of accesses with operations under way and none completed |
| Livelock.Round | c++/LCRQueue.hpp:200-275 | an enqueuer and a dequeuer that hold the same ticket of a ring of empty unsafe cells face each other again one ticket further, and neither has completed |
| HeapSolo.HeapSoloTermination | c++/HazardPointers.hpp:88-130 | the same with reclamation: the announcement, its validation and the scan of `retire` are part of the operation |
| HeapSolo.HeapFalls | c++/HazardPointers.hpp:108-130 | each access of a thread that runs alone lowers a measure: below that of the queue, where the announcement stands, the entries not yet scanned and the slots not yet read |
| Words.BitOperations | c++/LCRQueue.hpp:108-126 | on all 64-bit words, masking, testing and setting bit 63 are remainder, quotient and addition, and masking with 1023 is the remainder by 1024 |
| Words.TailOperations | c++/LCRQueue.hpp:128-151 | fetch-and-add, bit-test-and-set and the `fixState` jump on the packed `tail` word are the same operations on (closed, index) |
| Words.PoliteClose | c++/LCRQueue.hpp:143-147 | the closing CAS succeeds exactly on an open ring at the next index and leaves that index closed |
| Words.TailComparisons | c++/LCRQueue.hpp:134-134 | unsigned comparison with a raw `tail` word is comparison with the index of an open ring |
| Words.SignedDifference | c++/LCRQueue.hpp:211-211 | the signed reading of the wrapped difference of two tickets is their difference |
| Words.CellOperations | c++/LCRQueue.hpp:204-252 | what the four CAS2s store in the index word, in terms of the old word's flag and the ticket |
| Words.ResidueIsRemainder | c++/LCRQueue.hpp:199-199 | the cell of a ticket is the ticket's remainder by the ring size |
| Reclaim.HeapRefinesQueue | c++/HazardPointers.hpp:88-130 | every transition with addresses, slots and retired lists is a transition of the queue or leaves it alone |
| Reclaim.HeapRunProjects | c++/LCRQueue.hpp:172-275 | every run with reclamation and address reuse shows, state by state and in order, the states of a run of the queue alone, so the results above, of one instant or of several, carry over |
| Reclaim.RunSafe | c++/HazardPointers.hpp:108-130 | in every run: validated rings are live and named by the thread's own slot, live rings have different addresses, freed rings lie behind both pointers, a scan in progress has missed nobody |
| Reclaim.NoUseAfterFree | c++/LCRQueue.hpp:175-193 | no thread accesses a freed ring and neither list pointer leads to one, also while `tail` still points to a ring that `head` has left and retired |
| Reclaim.PointersIdentify | c++/LCRQueue.hpp:176-179 | comparing a list pointer with a validated pointer compares rings, although addresses are used again |
| Reclaim.FreedOnce | c++/HazardPointers.hpp:112-127 | what a scan frees was still allocated and is behind both pointers |
| Retirement.NoRingLost | c++/HazardPointers.hpp:108-130 | at every time a ring that `head` has left is freed, or on the retired list of the thread that moved `head`, or about to be put there by it; and an idle thread's slot is empty |
| Retirement.OneFate | c++/HazardPointers.hpp:108-130 | and only one of these |
| Retirement.ScanEnds | c++/HazardPointers.hpp:111-129 | when a scan has ended, each ring still in the list was named by some slot while the scan lasted, so that all others have been freed; the ring just retired is still there |
| Events.SubWaiter | c++/EventCount.hpp:96-103 | adding 2^64 - 1 takes one waiter off and never borrows from the epoch |
| Events.AddEpoch | c++/EventCount.hpp:83-84 | adding 2^32 raises the epoch modulo 2^32 and leaves the waiters |
| Events.WordRefinesPair | c++/EventCount.hpp:83-118 | over all interleavings the low half of the word is the number of threads between prepareWait and cancelWait or the end of wait, and the high half the notifications modulo 2^32; a thread about to leave wait has seen a notification since it registered |
| Events.WaitReturns | c++/EventCount.hpp:90-118 | a wait leaves its loop only after the epoch has been raised since its thread's prepareWait, and after a load of the word that shows it; a spurious wake-up is not enough |
| Events.NotifiedReturns | c++/EventCount.hpp:105-118 | a wait whose epoch has passed always has an access to make, returns after at most four of its own, and is not held up by any other thread |
| Events.NotifyReturns | c++/EventCount.hpp:83-88 | a notification of `n` threads returns only when nobody is asleep or when it has woken `n` sleepers since it raised the epoch |
| Await.AwaitBalanced | c++/EventCount.hpp:133-155 | the same with clients of `await`, on its returning and on its throwing exits |
| Await.AwaitJustified | c++/EventCount.hpp:133-155 | an await returns only after an evaluation that yielded true, all earlier ones false; it rethrows only after one that threw; it waits only while all have yielded false |
| Blocking.RunInv | c++/SCRQueue.hpp:27-66 | in every run the counting invariant holds: a thread settling down under the current epoch implies that every queued item has a producer that has not raised the epoch |
| Blocking.NoLostWakeUp | c++/SCRQueue.hpp:27-66 | while a consumer sleeps, the queued items number at most the awake consumers that will look again plus the producers that have not finished notifying; with none of those the queue is empty |
| Blocking.ItemsConserved | c++/SCRQueue.hpp:27-66 | in every run the items taken, in order, followed by the queued ones are the items added; the items of the enqueues called are those added and those about to be; the items taken are those returned by dequeues and those about to be |
| Blocking.QuietlyConserved | c++/SCRQueue.hpp:27-66 | when no operation is under way, the items of all enqueue calls are those that dequeues returned and those in the queue |
| Blocking.StepItems | c++/SCRQueue.hpp:27-66 | thread by thread: an enqueue adds the item it was called with at the end, and a dequeue returns the item it took from the front |
| Blocking.DequeueReturns | c++/SCRQueue.hpp:37-66 | a dequeue returns the item at the front at its first or its last look, and takes just that; one that returns null found the queue empty at its first look and at its last, with exactly MAX_PATIENCE waits in between |
| Blocking.PatienceCounts | c++/SCRQueue.hpp:51-58 | `patience` is the number of waits that this dequeue has started |
| PageSort.MergedAscends | c/malloc.c:402-412 | merging two strictly ascending lists of pages gives a strictly ascending one |
| PageSort.MergedKeepsPages | c/malloc.c:402-412 | and keeps exactly their pages |
| PageSort.InOrderAscends | c/malloc.c:390-396 | a first half in which no two neighbours were seen out of order is strictly ascending, so not sorting it is right |
| PageSort.PageTable.Sort | c/malloc.c:382-414 | the list returned holds the same pages in strictly ascending (count, page number) order, and no link outside the list changes |
| FreePages.OnePointer | c/malloc.c:850-886 | exactly one pointer leads to a free extent and `parent` is its address |
| FreePages.Canonical | c/malloc.c:850-886 | the links of a valid list of lists are determined by the set of (size, address) alone |
| FreePages.WithoutValid | c/malloc.c:850-861 | unlinking any member leaves a valid structure over the other extents |
| FreePages.WithValid | c/malloc.c:863-886 | linking an extent at the place the two loops find leaves a valid structure with it added |
| FreePages.FreeList.Remove | c/malloc.c:850-861 | fp_remove deletes exactly the given member |
| FreePages.FreeList.Add | c/malloc.c:863-886 | fp_add inserts exactly the given extent |
| FreePages.FreeList.Find | c/malloc.c:888-896 | fp_find removes and returns the least extent, by size and then address, of at least the size asked for, and returns null exactly when there is none |
| Extents.OneOwner | c/malloc.c:995-1030 | in a well-formed table every page belongs to exactly one extent, the one it names |
| Extents.VacantIsListed | c/malloc.c:863-886 | the free pages are exactly those of the extents that the free list holds |
| Extents.JoinTiled | c/malloc.c:1008-1013 | joining two adjacent extents keeps the tiling and the names in middle pages |
| Extents.MapDetermined | c/malloc.c:995-1030 | two well-formed tables with the same free pages that agree elsewhere are equal, and so are their free lists |
| Extents.Heap.FreePages | c/malloc.c:995-1030 | from a well-formed heap, in all four coalescing cases: the heap is well-formed again, the free pages are the old ones and those of the block, nothing outside them changes |
| Extents.Heap.Free | c/malloc.c:1275-1287 | freeing a block of pages: as above, and the heap shrinks exactly when it ends at the break, all pages from the block on are free, and not the last 2^19; it gives back only free pages and leaves none at its end |
| Extents.EndTest | c/malloc.c:1281-1282 | the test for the end of the heap, with its product of ints, is right exactly below 2^19 pages |
| Extents.HugeBlockStays | c/malloc.c:1281-1286 | a heap of one block of 2^19 pages that freeing does not shrink |
| Extents.Heap.Extend | c/malloc.c:1110-1128 | the sbrk path of valloc: the new pages are one block in use, the free pages are the same, and the map is kept if and only if the descriptors of a gap describe extents in use, in particular without a gap |
| Extents.MovedBreak | c/malloc.c:1110-1128 | a run after which no extent map is left, because the heap was extended over a descriptor left of a larger heap |
| Extents.Heap.Resize | c/malloc.c:1290-1339 | mresize succeeds exactly when the size class is the same or the block and the free block after it have room for the pages, as an int; then the block has exactly these, the rest is free and coalesced, pages are conserved, the heap shrinks exactly when the rest ends it, and all else is unchanged; otherwise nothing changes |
| Extents.PagesForExact | c/malloc.c:1310-1311 | the pages that mresize computes are those of the request if and only if their number is an int |
| Extents.CastLosesPages | c/malloc.c:1310-1311 | a request for 2^44 + 4096 bytes counts as one page |
| Extents.ResizeToNothing | c/malloc.c:1323-1332 | what mresize to no bytes does to a page extent: a block that is on no list is unlinked, or no extent map is left |
| Extents.Heap.AllocPages | c/malloc.c:971-989 | best fit; the free pages drop by exactly the pages handed out, the free list stays exact and coalesced; the whole map is kept if and only if nothing is asked for, a free block has just the size, or none is large enough |
| Extents.TakenTiled | c/malloc.c:971-989 | when the page table after a split is still an extent map, and that recording the end of the block would make it one |
| Extents.CutOffBlock | c/malloc.c:977-987 | taking one page of a free block of two leaves no extent map |
| Extents.CutOffFreed | c/malloc.c:1002-1028 | freeing a block that was cut off lists it with the pages of the whole block, so that it overlaps the rest on the free list, or, if the rest has been allocated, a block in use |
| Extents.Heap.GetChunkPage | c/malloc.c:921-930 | a page from valloc, made a page of chunks: it was free or is new, no page in use is touched, and the map is kept also when a block was split; it fails exactly when no page is free and sbrk fails |
| Extents.Heap.GiveChunkPage | c/malloc.c:1157-1167 | a page of chunks becomes a block of one page and is freed and coalesced |
| Classes.SmlistLeast | c/malloc.c:86-93 | the bit scan gives the least class that holds what the cast to int leaves of the request, and -1 exactly when that is nothing or more than half a page |
| Classes.SmlistHolds | c/malloc.c:86-93 | a chunk of the class holds the request if and only if the request is below 2^32 bytes |
| Classes.CastLosesRequest | c/malloc.c:86-93 | a request of 2^32 + 8 bytes is given the class of 8 bytes |
| Classes.ChunksFillPage | c/malloc.h:117-121 | the chunks of a class fill a page exactly |
| Chunks.MoveGood | c/malloc.c:937-948 | moving the first chunk of one list to the front of another keeps every chunk in exactly one place |
| Chunks.ChainLength | c/malloc.c:1145-1153 | a page's chain is shorter than the page while one of its chunks is elsewhere, and holds all of them when it is as long |
| Pool.Accounted | c/malloc.c:905-963 | every chunk of a page of the class is in exactly one of: a caller, lost, a thread's `free`, a thread's `aux`, its page's chain; and once |
| Pool.ChunkCode | c/malloc.c:1188-1189 | the page of every chunk has the code of its class, so `free` finds the right class |
| Pool.ListedPages | c/malloc.c:1152-1167 | between operations a page is listed exactly when it has a free chunk; `count` is the length of its chain, from 0 to one less than all |
| Pool.DrawnSorted | c/malloc.c:937-948 | taking a chunk from the first page keeps the list of pages in order |
| Pool.SizeClass.Malloc | c/malloc.c:898-966 | malloc_small hands out the first chunk of `free`, or of `aux`, which no caller held, or after a refill one from the pages, and the new cache is stated; it fails if and only if both lists are empty and the chunks on the chains and on the pages valloc gives are fewer than `target`, and then exactly these are lost; every chunk stays accounted for, exact counters exact, the list of pages sorted, and no assertion fires |
| Pool.SizeClass.Refill | c/malloc.c:911-957 | collects exactly `target` chunks if and only if the chains and the pages of valloc have that many, and leaves the rest; otherwise all of those chunks, fewer than `target`, are lost and nothing else changes but `target` |
| Pool.SizeClass.Flush | c/malloc.c:1133-1169 | all chunks of both lists go to the chains of their pages and the list of pages is sorted; the pages returned are exactly those all of whose chunks were on the chain or in the two lists, exactly those that left the class, each once, and described as blocks of one page for `free` |
| Pool.SizeClass.Free | c/malloc.c:1252-1269 | free takes exactly that chunk from its caller and keeps every chunk accounted for, flushing a full `aux`; the new cache is stated, when its 16-bit counters are exact, and which pages are released |
| Pool.ExactFields | c/malloc.c:1252-1269 | in every reachable state, whether a cache's counters are exact shows in its fields alone |
| Pool.CountWraps | c/malloc.c:1267-1269 | a thread without a `target` that frees with a `count` of 65535 has a `count` of 0 and a list of 65536 |
| Overflow.ConsumerOverflows | c/malloc.c:1252-1269 | a run: a producer allocates 65536 chunks, a consumer frees them, and the consumer's counters are not exact |
| Pool.SizeClass.Finish | c/malloc.c:710-723 | a thread that leaves returns its whole cache to the pages; the pages released are exactly those all of whose chunks were on the chain or in the cache |
| Pool.FlowsEnd | c/malloc.c:1141-1153 | a page is wholly free after the first loop of the flush exactly when all its chunks were on its chain or in the two lists before |
| Pool.WhollyIsFull | c/malloc.c:1152-1153 | a page has all its chunks on its chain exactly when the chain is as long as the page |
| Allocator.Allocator.Malloc | c/malloc.c:898-966 | malloc_small over the heap: the chunk handed out lies on a page in use that is not free, and no page in use is touched; it fails if and only if the thread's lists are both empty and sbrk refuses a page at a chunk that needs one, after the chunks on chains and on free pages; then no chunk is on a chain and no page is free; otherwise chunks are conserved and the heap grows by no page more than needed; both layers stay well-formed |
| Allocator.Allocator.Refill | c/malloc.c:911-957 | the same of the refill alone: which chunks need a page from sbrk, and that it succeeds exactly when each of them gets one |
| Allocator.Allocator.Free | c/malloc.c:1133-1169 | free over the heap: exactly the pages that leave the class become free, nothing else is touched, and both layers stay well-formed |
| Allocator.NeverIdle | c/malloc.c:921-936 | a page of chunks is never a free page |

## Left out

- `c/ELCRQ.h`, `c/EventCount.h`, `c/primitives.h`: the C versions of the queue and the event count; the C++ ones are modelled.
- Memory orders: the x86 locked instructions and seq_cst accesses are taken to interleave; the relaxed stores to an unpublished ring are part of its creation, and the release store that clears a slot happens with the return of the operation.
- The private life of a ring whose append fails (c++/LCRQueue.hpp:185-197): it is never shared, so its creation and destruction are not separate transitions.
- Livelock.NotLockFree: a condition weaker than running alone under which some operation completes is not stated.
- `waitUntil` (c++/EventCount.hpp:120-131) and `c++/Futex.cpp`: clocks and system calls; the futex is abstract.
- `spinEnqueue` and `spinDequeue` (c++/SCRQueue.hpp:33-35 and 68-73): the first does not notify, so no wake-up result can cover it.
- `protect`, `protectRelease` and `clearOne` of `c++/HazardPointers.hpp`: not used by the queue.
- Constructors and destructors of the C++ classes, and the benchmark programs.
- `expand_page_table`, alignment and failure of `sbrk` in `valloc`, `shm_brk`, `shm_init`, locks, debug guards, `heapdump`: memory mapping, files and printing.  `sbrk(0) == membase->end` is a parameter of Extents.Heap.Free, and the pages that `valloc` returns are a parameter of Pool.SizeClass.Malloc.
- Allocator.Allocator has one size class; the classes share the heap and nothing else.  Its two layers keep their parts of a page descriptor separately, and the steps by which one hands a page to the other are assignments to both.
- `shm_child` (c/malloc.c:726-733): it drops the lists but not their counts, so it does not keep the cache invariant.
- `malloc`, `realloc`, `calloc`, `msize`: they only combine the above.
- Extents.Heap.Resize: a request on a page extent whose pages come to 0 as an int, such as one for no bytes, is not covered, because the code then unlinks a block that is on no list or leaves no extent map, as Extents.ResizeToNothing shows.
- Blocking.NoLostWakeUp: assumes that no key is held over 2^32 or more notifications; the program does not detect that case.
