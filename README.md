# ATask lock-free links and task-thread control in Dafny

This project models the core of the ATask threading library:

- **Link machinery** (`ATask/public/LockFreeList.h`):
  - the tagged index pointer `FIndexedPointer`, which packs a 26-bit link index and a 38-bit ABA counter-and-state into one 64-bit word;
  - the alloc-once link allocator;
  - the Treiber-style LIFO root and its payload wrapper;
  - the closable single-consumer list;
  - the FIFO with a resident dummy link;
  - the stalling task queue, which keeps per-priority FIFOs and a bit mask of parked worker slots.
- **Per-thread link cache** (`ATask/private/LockFreeList.cpp`): `LockFreeLinkAllocator_TLSCache`, which hands out and takes back links in bundles of 64 chained through their `Payload`, together with `AllocLockFreeLink` and `FreeLockFreeLink`.
- **Named-thread codes** (`ATask/public/TaskGraphInterface.h`): the `ENamedThreads` encoding of thread index, queue, task priority and thread priority.
- **Task-thread control** (`ATask/private/TaskGraph.cpp`): the named task thread's two queues with their quit flags, recursion guard and restart event; the any-thread worker's quit request; and the thread-index arithmetic of the graph.
- **Small pieces**: `FThreadSafeCounter`, `FSingleThreadEvent`, and the two `FThreadManager` registries (`ATask/private/ThreadManager.cpp` and `ATask/Thread/ThreadBase.cpp`).

The link machinery is modelled with sequential semantics. One thread runs each operation to completion, so every compare-and-swap succeeds at its first attempt. The link arena is a map from index to a record `Link(DoubleNext, Payload, SingleNext)`. Each collection is a class whose fields hold its head/tail words. A ghost sequence records the links on each collection, and the class invariant ties that sequence to the chains in the arena.

The free links of the cache are also described on values (`FreeLinkBundles.FreeLinks`), using three functions:

- `PopSpec` describes `Pop`;
- `PushSpec` describes `Push`;
- `RefillSpec` describes the refill order.

The cache methods are proved to follow these functions. Lemmas then prove the properties of the functions themselves.

A task's execution is opaque. Its only modelled effect is the quit request it may make of its thread, supplied as a function `effect`. Each execution is logged together with the thread-and-queue code it is passed.

## Model

| member | source | states |
|---|---|---|
| IndexedPointers.Init | ATask/public/LockFreeList.h:120-124 | the cleared word is a null index with counter-and-state 0 |
| IndexedPointers.GetPtr | ATask/public/LockFreeList.h:131-134 | the index field is always below MAX_LOCK_FREE_LINKS (2^26) |
| IndexedPointers.GetCounterAndState | ATask/public/LockFreeList.h:141-144 | the counter-and-state is always below MAX_TagBitsValue (2^38) |
| IndexedPointers.SetAll | ATask/public/LockFreeList.h:125-129 | under the asserted bounds the packed word reads back exactly the index and the counter-and-state it was given |
| IndexedPointers.SetPtr | ATask/public/LockFreeList.h:136-139 | the new index reads back and the counter-and-state is unchanged |
| IndexedPointers.SetCounterAndState | ATask/public/LockFreeList.h:146-149 | the new counter-and-state reads back and the index is unchanged |
| IndexedPointers.FieldsDetermineWord | ATask/public/LockFreeList.h:125-149 | the packing is lossless: two words with equal index and counter-and-state are the same word |
| IndexedPointers.GetState | ATask/public/LockFreeList.h:161-165 | the state is below TABAInc |
| IndexedPointers.SetState | ATask/public/LockFreeList.h:167-172 | for Value < TABAInc the state reads back as Value, while the counter bits above TABAInc and the index are unchanged |
| IndexedPointers.IncrementDividesTagLimit | ATask/public/LockFreeList.h:248-249 | every TABAInc either collection admits (the LIFO root's up to 2^15, the FIFO's up to 65536) divides 2^38 and leaves at least one counter value |
| IndexedPointers.IncrementsMatchAssertions | ATask/public/LockFreeList.h:248-249 | a positive TABAInc is in the LIFO root's set exactly when it is a power of two and 2^38 / TABAInc is at least 2^23 |
| IndexedPointers.TagIncrementsMatchAssertions | ATask/public/LockFreeList.h:505-506 | a positive TABAInc is in the FIFO's set exactly when it is a power of two no larger than 65536 |
| IndexedPointers.TagIncrementsArePowers | ATask/public/LockFreeList.h:505-506 | every increment in the FIFO's set is a power of two no larger than 65536 |
| IndexedPointers.PowersAreTagIncrements | ATask/public/LockFreeList.h:505-506 | every power of two up to 65536 is in the FIFO's set |
| IndexedPointers.AdvanceCounterAndState | ATask/public/LockFreeList.h:151-159 | the word keeps its own index; the counter-and-state becomes From's plus TABAInc modulo 2^38; the overflow hook runs exactly when that sum reaches 2^38, which is exactly when the new value is below From's |
| IndexedPointers.AdvanceKeepsState | ATask/public/LockFreeList.h:151-165 | advancing by TABAInc never disturbs the state bits, even when the counter wraps |
| IndexedPointers.AdvanceCountsOneStep | ATask/public/LockFreeList.h:151-159 | the counter part (the bits above TABAInc) moves up by exactly one, modulo the number of counter values 2^38 / TABAInc |
| IndexedPointers.Successor | ATask/public/LockFreeList.h:262-270 | the head word a successful update installs points at the new target |
| IndexedPointers.SuccessorSteps | ATask/public/LockFreeList.h:262-270 | a successful head update keeps the state bits and advances the counter by one step |
| IndexedPointers.AdvanceCounterAndStateAsWritten | ATask/public/LockFreeList.h:151-159 | as written, with SetAll's assertion: it passes exactly when From's counter-and-state plus TABAInc is below 2^38, and then the overflow hook never runs |
| IndexedPointers.CounterWrapTripsAssertion | ATask/public/LockFreeList.h:151-159 | from counter-and-state 2^38-1 with TABAInc 1, the as-written step fails the assertion, while the wrapping step reaches 0 and reports the overflow |
| IndexedPointers.EmptyLink | ATask/public/LockFreeList.h:199-204 | a value-initialised link has a null DoubleNext index, a null Payload and a null SingleNext |
| LinkAllocation.LinkAllocator.constructor | ATask/public/LockFreeList.h:43-50 | NextIndex starts at 1 (index 0 is reserved as null), no page is installed and no link is constructed |
| LinkAllocation.LinkAllocator.GetItem | ATask/public/LockFreeList.h:65-75 | index 0 gives null; any other index gives page index/16384 and slot index%16384, on an installed page |
| LinkAllocation.LinkAllocator.GetRawItem | ATask/public/LockFreeList.h:78-100 | returns the page and slot of the index, installing the page if it is missing; a page is installed at most once |
| LinkAllocation.LinkAllocator.Alloc | ATask/public/LockFreeList.h:52-64 | returns the old NextIndex and advances it by Count, so successive calls get disjoint consecutive ranges; the exhaustion hook is recorded exactly when FirstItem+Count passes MaxTotalItems; otherwise every index of the range is a fresh empty link and all other records are unchanged |
| LIFORoots.LIFORoot.constructor | ATask/public/LockFreeList.h:244-251 | a new root is empty and its head is the zero word |
| LIFORoots.LIFORoot.Reset | ATask/public/LockFreeList.h:253-256 | the list becomes empty and the head becomes the zero word |
| LIFORoots.LIFORoot.Push | ATask/public/LockFreeList.h:258-274 | the item becomes the top, its SingleNext is the old top, and the head points at it with the counter advanced one step; no other link changes |
| LIFORoots.LIFORoot.PushIf | ATask/public/LockFreeList.h:276-300 | the callback sees the current state; a 0 result returns false and changes nothing; any other link is pushed as by Push, and true is returned |
| LIFORoots.LIFORoot.Pop | ATask/public/LockFreeList.h:303-326 | returns 0 exactly when the list is empty, and then leaves the head untouched; otherwise returns the most recently pushed remaining link, clears its SingleNext, keeps the rest in order and advances the counter |
| LIFORoots.LIFORoot.PopAll | ATask/public/LockFreeList.h:328-349 | returns the old top with its chain intact and leaves the list empty; an empty list keeps its head, otherwise the counter advances |
| LIFORoots.LIFORoot.PopAllAndChangeState | ATask/public/LockFreeList.h:351-370 | detaches the whole chain, even an empty one; the state becomes StateChange(old state) and the counter advances one step |
| LIFORoots.LIFORoot.IsEmpty | ATask/public/LockFreeList.h:372-375 | true exactly when no link is on the list |
| LIFORoots.LIFORoot.GetState | ATask/public/LockFreeList.h:377-382 | the state is below TABAInc |
| LIFOLists.LIFOBase.constructor | ATask/public/LockFreeList.h:391-401 | a new list holds no payloads |
| LIFOLists.LIFOBase.Reset | ATask/public/LockFreeList.h:398-401 | the list holds no payloads and its head is the zero word |
| LIFOLists.LIFOBase.AllocLink | ATask/public/LockFreeList.h:405-406 | takes the next link from the cache (as PopSpec says) and stores the payload in it; the link is on no list and was free or never allocated; every other allocated link that was not free keeps its record and stays off the free list |
| LIFOLists.LIFOBase.TakeLink | ATask/public/LockFreeList.h:405 | the link handed out is the one PopSpec names; it is nonzero, on no list and not free, and was free or never allocated; every other allocated link that was not free keeps its record and stays off the free list |
| LIFOLists.LIFOBase.StorePayload | ATask/public/LockFreeList.h:406 | only that link's Payload changes; the free links are unchanged |
| LIFOLists.LIFOBase.Push | ATask/public/LockFreeList.h:403-408 | the payload is added at the front, exactly one link is taken from the cache, and the head counter advances; every allocated link that was not free, the list's own included, keeps its record and stays off the free list |
| LIFOLists.LIFOBase.LinkOnList | ATask/public/LockFreeList.h:407 | the link's payload becomes the first payload and the rest are unchanged; no other link changes |
| LIFOLists.LIFOBase.PushIf | ATask/public/LockFreeList.h:410-437 | returns OkToPush(current state), and the state is unchanged either way; if pushed, the payload is added at the front using one cache link; if refused, the payloads, the head, the cache and the arena are all unchanged, because no link is allocated; either way every allocated link that was not free keeps its record and stays off the free list |
| LIFOLists.LIFOBase.LinkIf | ATask/public/LockFreeList.h:427 | the root's PushIf with the allocating callback: links the item exactly when OkToPush accepts; no other link changes |
| LIFOLists.LIFOBase.Pop | ATask/public/LockFreeList.h:440-450 | on an empty list returns null and leaves the cache and the arena unchanged; otherwise returns the most recent payload, keeps the rest, and frees its link to the cache (PushSpec); every link outside the list's old links that was allocated and not free keeps its record and stays off the free list |
| LIFOLists.LIFOBase.UnlinkTop | ATask/public/LockFreeList.h:442 | removes the top link, which still carries the first payload; no link outside the list changes |
| LIFOLists.LIFOBase.PopAll | ATask/public/LockFreeList.h:452-463 | appends every payload, most recent first, to the output; leaves the list empty; frees every link in chain order, so the free list gains the chain reversed; every link outside the list's old links that was allocated and not free keeps its record and stays off the free list |
| LIFOLists.LIFOBase.PopAllAndChangeState | ATask/public/LockFreeList.h:465-476 | as PopAll, and in addition the state becomes StateChange(old state); every link outside the list's old links that was allocated and not free keeps its record and stays off the free list |
| LIFOLists.LIFOBase.DrainLinks | ATask/public/LockFreeList.h:455-462 | the walk down a detached chain appends its payloads in order and frees each link; links outside the chain keep their records and stay off the free list |
| LIFOLists.LIFOBase.DrainChain | ATask/public/LockFreeList.h:455-462 | the loop of that walk: the output gains the chain's payloads in chain order, and the free links gain the chain reversed (PushMany); links outside the chain keep their records and stay off the free list |
| LIFOLists.LIFOBase.FreeHead | ATask/public/LockFreeList.h:457-461 | one step of the walk: reads the payload and the next link, then frees the head link; no other link changes |
| LIFOLists.LIFOBase.IsEmpty | ATask/public/LockFreeList.h:478-481 | true exactly when the list holds no payloads |
| LIFOLists.LIFOBase.GetState | ATask/public/LockFreeList.h:483-486 | the state is below TABAInc |
| LIFOLists.ClosableList.constructor | ATask/public/LockFreeList.h:872-874 | a new closable list is empty and open |
| LIFOLists.ClosableList.Reset | ATask/public/LockFreeList.h:880-883 | the list becomes empty and open again |
| LIFOLists.ClosableList.PushIfNotClosed | ATask/public/LockFreeList.h:891-894 | succeeds exactly when state bit 0 is clear; never changes whether the list is closed; a refused push leaves the payloads and the cache unchanged; every allocated link that was not free keeps its record and stays off the free list |
| LIFOLists.ClosableList.PopAllAndClose | ATask/public/LockFreeList.h:901-909 | requires an open list (the assertion); returns every item, leaves the list empty and closed (even if it was empty), and frees all its links; every link outside the list's old links that was allocated and not free keeps its record and stays off the free list |
| LIFOLists.ClosableList.IsClosed | ATask/public/LockFreeList.h:915-918 | true exactly when the head's state (TABAInc 2) is 1, false exactly when it is 0 |
| FIFOLists.PrefixBeforeNullIsRun | ATask/public/LockFreeList.h:600-606 | the items PopAll collects are a prefix of the queue, none of them null, ending at the end of the queue or at a null payload |
| FIFOLists.RunIsPrefixBeforeNull | ATask/public/LockFreeList.h:600-606 | that prefix is the only one with this property |
| FIFOLists.FIFOBase.constructor | ATask/public/LockFreeList.h:501-513 | for every TABAInc the FIFO's static assertions admit, up to 65536: a new queue is empty; head and tail point at the same dummy link taken from the cache, and both counters are 0 |
| FIFOLists.FIFOBase.Push | ATask/public/LockFreeList.h:515-555 | the payload is appended at the back; the head is unchanged; the tail moves to the new link with its counter advanced; one link is taken from the cache; every link outside the queue's old links that was allocated and not free keeps its record and stays off the free list |
| FIFOLists.FIFOBase.NewLink | ATask/public/LockFreeList.h:517-518 | a link from the cache (PopSpec) with the payload stored and a null DoubleNext; it was free or never allocated, and every other allocated link that was not free keeps its record and stays off the free list |
| FIFOLists.FIFOBase.TakeLink | ATask/public/LockFreeList.h:517 | the link PopSpec names, with a null DoubleNext; it was free or never allocated, and every other allocated link that was not free keeps its record and stays off the free list |
| FIFOLists.FIFOBase.StorePayload | ATask/public/LockFreeList.h:518 | only that link's Payload changes; the free links are unchanged |
| FIFOLists.FIFOBase.LinkAtTail | ATask/public/LockFreeList.h:539-553 | the link is chained after the tail link and the tail swings to it; no link outside the queue changes |
| FIFOLists.FIFOBase.Pop | ATask/public/LockFreeList.h:557-598 | an empty queue returns null and changes nothing: head, links, arena and cache stay; otherwise returns the oldest payload (push order); the link that carried it becomes the new dummy, the head counter advances, and the old dummy is freed to the cache; the tail is unchanged; every link outside the queue's old links that was allocated and not free keeps its record and stays off the free list |
| FIFOLists.FIFOBase.PopAll | ATask/public/LockFreeList.h:600-606 | appends the payloads up to the first null payload and leaves what lies after it; every link outside the queue's old links that was allocated and not free keeps its record and stays off the free list |
| FIFOLists.FIFOBase.IsEmpty | ATask/public/LockFreeList.h:609-616 | true exactly when the dummy has no successor, that is, when the queue holds no payloads |
| StallingQueues.TurnOnBitTests | ATask/public/LockFreeList.h:746-749 | after TurnOnBit(x, b), bit j is set exactly when j is b or it was set before |
| StallingQueues.TurnOffBitTests | ATask/public/LockFreeList.h:741-744 | after TurnOffBit(x, b), bit j is set exactly when j is not b and it was set before |
| StallingQueues.TurnOnBitBelow | ATask/public/LockFreeList.h:746-749 | setting a bit below 26 keeps the mask within the 26-bit index field |
| StallingQueues.TurnOffBitAtMost | ATask/public/LockFreeList.h:741-744 | clearing a bit never increases the mask |
| StallingQueues.TurnOffUndoesTurnOn | ATask/public/LockFreeList.h:741-749 | clearing a bit that was just set restores the mask |
| StallingQueues.FindThreadToWake | ATask/public/LockFreeList.h:725-738 | returns -1 exactly when no bit is set, otherwise the lowest set bit (below 26) |
| StallingQueues.ScanTakesFirst | ATask/public/LockFreeList.h:687-705 | the priority scan finds nothing exactly when every queue is empty, and then leaves them as they were; otherwise it takes the head of the first non-empty queue and leaves the other queues alone |
| StallingQueues.ScanShrinks | ATask/public/LockFreeList.h:687-705 | a scan never adds items and removes exactly one when it finds one |
| StallingQueues.FlattenPop | ATask/public/LockFreeList.h:687-705 | the item taken is the first of all items in priority-then-arrival order, and the rest keep that order |
| StallingQueues.FlattenEmpty | ATask/public/LockFreeList.h:687-705 | with every queue empty, nothing remains to take |
| StallingQueues.StallingTaskQueue.constructor | ATask/public/LockFreeList.h:639-642 | all queues are empty, no slot is parked and the counter is 0 |
| StallingQueues.StallingTaskQueue.Push | ATask/public/LockFreeList.h:643-676 | appends to the given priority's FIFO; if a slot is parked, returns the lowest one and clears exactly its bit, otherwise returns -1 and leaves the mask; the counter advances by 1 |
| StallingQueues.StallingTaskQueue.Pop | ATask/public/LockFreeList.h:678-721 | takes what the priority scan finds (priority 0 first); a found item leaves the mask and advances the counter; with nothing found, a stalling pop sets its own bit and advances the counter, and a non-stalling pop leaves the state untouched |
| NamedThreads.GetThreadIndex | ATask/public/TaskGraphInterface.h:67-71 | the low byte, which is AnyThread (0xff) when that byte is 0xff |
| NamedThreads.GetQueueIndex | ATask/public/TaskGraphInterface.h:73-76 | 1 exactly when the LocalQueue bit (bit 8) is set, otherwise 0 |
| NamedThreads.GetTaskPriority | ATask/public/TaskGraphInterface.h:78-81 | 1 exactly when the HighTaskPriority bit (bit 9) is set, otherwise 0 |
| NamedThreads.GetThreadPriorityIndex | ATask/public/TaskGraphInterface.h:83-88 | requires the asserted range (bits 10-11 not both set); 0 for normal, 1 for high, otherwise 2 (background) |
| NamedThreads.SetPrioritiesByIndex | ATask/public/TaskGraphInterface.h:101-108 | keeps the thread-index byte |
| NamedThreads.SetPrioritiesByIndexDecodes | ATask/public/TaskGraphInterface.h:101-108 | decoding the result gives back the index, queue 0, the priority index, and task priority 1 or 0 as bHiPri says |
| NamedThreads.SetPrioritiesCheckAdmitsInvalidPriority | ATask/public/TaskGraphInterface.h:90-99 | the assertion as written accepts thread priority 0xC00, which GetThreadPriorityIndex rejects; the corrected check refuses it |
| NamedThreads.SetPrioritiesCheckStrengthens | ATask/public/TaskGraphInterface.h:90-99 | the corrected check implies the as-written one, and differs from it only by refusing thread priority 0xC00 |
| NamedThreads.SetPriorities | ATask/public/TaskGraphInterface.h:90-99 | under the corrected check the result decodes to the index, queue 0, the given (valid) thread priority bits, and the given task priority |
| NamedThreads.SetThreadPriority | ATask/public/TaskGraphInterface.h:110-119 | the result decodes to the index, queue 0, normal task priority and the given valid thread priority |
| NamedThreads.SetTaskPriority | ATask/public/TaskGraphInterface.h:121-129 | the result decodes to the index, queue 0, normal thread priority and the given task priority |
| NamedThreads.LocalNamesDecode | ATask/public/TaskGraphInterface.h:51-52 | GameThread_Local and ActualRenderingThread_Local decode to their threads on queue 1 |
| NamedThreads.CombinationsDecode | ATask/public/TaskGraphInterface.h:54-61 | each combination constant is the OR of its parts and decodes to AnyThread with its thread and task priority |
| FreeLinkBundles.FreshChain | ATask/private/LockFreeList.cpp:89-98 | the partial bundle after chaining n fresh links runs from the highest index down to FirstIndex |
| FreeLinkBundles.RefillOrder | ATask/private/LockFreeList.cpp:77-101 | an empty partial bundle is refilled first from the full bundle (which is then cleared), else from the top global bundle, else from 64 fresh indices, handing out the highest one |
| FreeLinkBundles.PopKeepsWellFormed | ATask/private/LockFreeList.cpp:100-105 | Pop keeps the counting invariant: the partial bundle holds at most 64 links, and the full and global bundles hold exactly 64 |
| FreeLinkBundles.PushKeepsWellFormed | ATask/private/LockFreeList.cpp:120-136 | Push keeps the counting invariant |
| FreeLinkBundles.PushThenPop | ATask/private/LockFreeList.cpp:117-137 | Pop right after Push(i) returns i, and restores the cache when the push did not retire a bundle |
| FreeLinkBundles.PopConserves | ATask/private/LockFreeList.cpp:73-109 | Pop removes exactly the link it returns from the free links, or from a fresh batch of 64 when there were none |
| FreeLinkBundles.PushConserves | ATask/private/LockFreeList.cpp:117-137 | Push adds exactly the item, at the front of the free links |
| FreeLinkBundles.PushManyConserves | ATask/public/LockFreeList.h:455-462 | freeing a chain link by link puts it on the free links in reverse order |
| FreeLinkBundles.PopManyFromPartial | ATask/private/LockFreeList.cpp:102-105 | n pops from a partial bundle of at least n links hand out its first n links in order |
| FreeLinkBundles.FreshBatchOrder | ATask/private/LockFreeList.cpp:89-98 | 64 pops from an empty cache hand out FirstIndex+63 down to FirstIndex, and the cache then needs a fresh batch again |
| LinkCaches.LinkCache.constructor | ATask/private/LockFreeList.cpp:54-59 | the TLS slot is claimed but holds no record; there are no free links and the global list is empty |
| LinkCaches.LinkCache.GetTLS | ATask/private/LockFreeList.cpp:156-166 | creates an all-zero record on first use and otherwise keeps the existing one |
| LinkCaches.LinkCache.Pop | ATask/private/LockFreeList.cpp:73-109 | hands out the link PopSpec names: nonzero, with null Payload, SingleNext and DoubleNext index, taken either from the free links or freshly constructed; NextIndex grows by 64 exactly when a fresh batch is needed; no other link in use changes; NumPartial stays the length of the partial chain |
| LinkCaches.LinkCache.Refill | ATask/private/LockFreeList.cpp:77-101 | the empty partial bundle is refilled as RefillSpec orders |
| LinkCaches.LinkCache.RefillFromFull | ATask/private/LockFreeList.cpp:79-83 | the full bundle becomes the partial bundle and the full slot is cleared |
| LinkCaches.LinkCache.RefillFromGlobalList | ATask/private/LockFreeList.cpp:86-87 | returns 0 exactly when the global list is empty, and then changes nothing; otherwise the top global bundle becomes the partial bundle |
| LinkCaches.LinkCache.RefillFresh | ATask/private/LockFreeList.cpp:89-98 | 64 fresh indices are allocated and become the partial bundle, highest index first |
| LinkCaches.LinkCache.ChainFresh | ATask/private/LockFreeList.cpp:90-97 | each fresh link gets the previous index as its Payload (the first one gets 0) and cleared next fields; the bundle head is the highest index; no other link changes |
| LinkCaches.LinkCache.TakeHead | ATask/private/LockFreeList.cpp:102-107 | returns the head of the partial bundle with its Payload cleared; the partial bundle loses exactly that link |
| LinkCaches.LinkCache.Push | ATask/private/LockFreeList.cpp:117-137 | the free links change as PushSpec says, and only the pushed link's record changes |
| LinkCaches.LinkCache.RetirePartial | ATask/private/LockFreeList.cpp:120-130 | a full partial bundle becomes the full bundle; a previous full bundle goes to the global list; the partial bundle starts empty |
| LinkCaches.LinkCache.RetireWithFull | ATask/private/LockFreeList.cpp:122-126 | the previous full bundle is pushed onto the global list through its first link |
| LinkCaches.LinkCache.PushOnPartial | ATask/private/LockFreeList.cpp:131-136 | the item becomes the head of the partial bundle, its Payload is the old head and its next fields are cleared |
| LinkCaches.AllocLockFreeLink | ATask/private/LockFreeList.cpp:182-188 | the asserted postcondition holds: the link is nonzero, with null DoubleNext index, Payload and SingleNext; it was free or never allocated; links the caller owns are unchanged, and every allocated link that was not free keeps its record and stays off the free list |
| LinkCaches.FreeLockFreeLink | ATask/private/LockFreeList.cpp:177-180 | is exactly the cache's Push: the item goes to the front of the free links; every other allocated link that was not free keeps its record and stays off the free list |
| TaskGraphs.QueueCode | ATask/private/TaskGraph.cpp:199 | the code passed to an executing task decodes to the thread's index and the queue index |
| TaskGraphs.ShutdownAll | ATask/private/TaskGraph.cpp:232-239 | both queues get QuitForShutdown and a triggered event; their other fields are unchanged |
| TaskGraphs.DrainOrder | ATask/private/TaskGraph.cpp:179-202 | the drain executes tasks in priority-then-arrival order and leaves the rest queued in that order; it stops right after the first task that requests a return, no earlier task requested one, and without such a request it empties the queues |
| TaskGraphs.NamedTaskThread.constructor | ATask/private/TaskGraph.cpp:268-275 | each queue starts with guard 0, both quit flags clear, an untriggered event, empty stalling queues and no parked slot |
| TaskGraphs.NamedTaskThread.IsProcessingTasks | ATask/private/TaskGraph.cpp:247-250 | true exactly when the queue's recursion guard is nonzero |
| TaskGraphs.NamedTaskThread.RequestQuit | ATask/private/TaskGraph.cpp:228-245 | does nothing without queue 0's event; with -1 it sets QuitForShutdown on both queues and triggers both events; with a queue index it sets only that queue's QuitForReturn |
| TaskGraphs.NamedTaskThread.Execute | ATask/private/TaskGraph.cpp:199 | logs the task with ThreadId \| QueueIndex << 8 and applies the quit request it makes |
| TaskGraphs.NamedTaskThread.EnqueueFromThisThread | ATask/private/TaskGraph.cpp:204-210 | appends the task to stall-queue index 0 for a high task priority and to index 1 otherwise; the parked mask is unchanged |
| TaskGraphs.NamedTaskThread.EnqueueFromOtherThread | ATask/private/TaskGraph.cpp:212-226 | appends the task by the same priority mapping; returns true and triggers the queue's event exactly when slot 0 was parked; afterwards nobody is parked |
| TaskGraphs.NamedTaskThread.PopAndExecute | ATask/private/TaskGraph.cpp:183-200 | pops with slot 0 as the priority scan orders, and executes and logs the task found; when nothing is found, the flags and the log are unchanged, and a stalling pop parks slot 0 |
| TaskGraphs.NamedTaskThread.DrainStep | ATask/private/TaskGraph.cpp:181-201 | one pass of the loop keeps the drain on track with DrainSpec; it shrinks the queues when it executes a task, and when it finds nothing the drain is complete |
| TaskGraphs.NamedTaskThread.DrainQueue | ATask/private/TaskGraph.cpp:181-201 | the loop executes exactly the tasks DrainSpec lists, in order, and leaves the rest queued; the flags are as those tasks' quit requests leave them |
| TaskGraphs.NamedTaskThread.ProcessTasksNamedThread | ATask/private/TaskGraph.cpp:179-202 | with QuitForReturn already set it does nothing; otherwise it drains as DrainSpec says, ending idle (no stall), parked (stall, no signal), shut down (a signalled shutdown) or on a return request |
| TaskGraphs.NamedTaskThread.ProcessTasksUntilIdle | ATask/private/TaskGraph.cpp:170-177 | clears QuitForReturn, drains without stalling exactly the tasks DrainSpec lists, restores the guard to 0 and leaves the parked mask |
| TaskGraphs.NamedTaskThread.ProcessTasksUntilQuit | ATask/private/TaskGraph.cpp:157-167 | clears QuitForReturn and drains; unless the thread is parked, the loop's repeat condition is false afterwards (a return or shutdown was requested, or multithreading is unsupported); the guard is nonzero exactly while parked |
| TaskGraphs.StallPriority | ATask/private/TaskGraph.cpp:207 | stall-queue index 0 exactly for a high task priority, otherwise 1 |
| TaskGraphs.AnyTaskThread.constructor | ATask/private/TaskGraph.cpp:305-308 | records the priority index; the guard is 0 and neither quit nor a signal is pending |
| TaskGraphs.AnyTaskThread.RequestQuit | ATask/private/TaskGraph.cpp:335-341 | requires a negative queue index; sets QuitForShutdown and triggers the event |
| TaskGraphs.AnyTaskThread.WakeUp | ATask/private/TaskGraph.cpp:343-346 | triggers the event and changes nothing else |
| TaskGraphs.AnyTaskThread.IsProcessingTasks | ATask/private/TaskGraph.cpp:362-366 | requires queue 0; true exactly when the guard is nonzero |
| TaskGraphs.ThreadIndexToPriorityIndex | ATask/private/TaskGraph.cpp:488-494 | for a task-thread index, the set it lies in: within [0, NumTaskThreadSets), and the index lies in that set's block of NumTaskThreadsPerSet |
| TaskGraphs.TaskThreadCode | ATask/private/TaskGraph.cpp:481-482 | a task thread's code decodes to its index, queue 0, normal task priority and the priority index of its set |
| TaskGraphs.GetCurrentThread | ATask/private/TaskGraph.cpp:466-486 | AnyThread without a TLS record; a named index maps to itself; a task-thread index maps to its code with its set's priority |
| ThreadSafeCounters.Wrap | ATask/public/ThreadSafeCounter.h:70 | 32-bit two's-complement wrap: congruent to the value modulo 2^32, and the value itself when it is in range |
| ThreadSafeCounters.AddThenSubtract | ATask/public/ThreadSafeCounter.h:32-48 | Subtract(a) undoes Add(a), even across wrap-around |
| ThreadSafeCounters.SubtractThenAdd | ATask/public/ThreadSafeCounter.h:32-48 | Add(a) undoes Subtract(a), even across wrap-around |
| ThreadSafeCounters.IncrementWraps | ATask/public/ThreadSafeCounter.h:26-30 | incrementing INT32_MAX gives INT32_MIN; any other value goes up by one |
| ThreadSafeCounters.ThreadSafeCounter.constructor | ATask/public/ThreadSafeCounter.h:11-14 | a new counter is 0 |
| ThreadSafeCounters.ThreadSafeCounter.Copy | ATask/public/ThreadSafeCounter.h:16-19 | a copy holds the other counter's value |
| ThreadSafeCounters.ThreadSafeCounter.FromValue | ATask/public/ThreadSafeCounter.h:21-24 | the counter holds the given value |
| ThreadSafeCounters.ThreadSafeCounter.Increment | ATask/public/ThreadSafeCounter.h:26-30 | adds 1 with wrap-around and returns the new value |
| ThreadSafeCounters.ThreadSafeCounter.Add | ATask/public/ThreadSafeCounter.h:32-36 | adds Amount with wrap-around and returns the old value |
| ThreadSafeCounters.ThreadSafeCounter.Decrement | ATask/public/ThreadSafeCounter.h:38-42 | subtracts 1 with wrap-around and returns the new value |
| ThreadSafeCounters.ThreadSafeCounter.Subtract | ATask/public/ThreadSafeCounter.h:44-48 | subtracts Amount with wrap-around (adding -Amount) and returns the old value |
| ThreadSafeCounters.ThreadSafeCounter.Set | ATask/public/ThreadSafeCounter.h:50-54 | stores the value and returns the old one |
| ThreadSafeCounters.ThreadSafeCounter.Reset | ATask/public/ThreadSafeCounter.h:56-60 | stores 0 and returns the old value |
| ThreadSafeCounters.ThreadSafeCounter.GetValue | ATask/public/ThreadSafeCounter.h:62-66 | returns the current value and changes nothing |
| SingleThreadEvents.AfterTrigger | ATask/public/SingleThreadEvent.h:27-30 | the event is triggered and its reset mode is kept |
| SingleThreadEvents.AfterReset | ATask/public/SingleThreadEvent.h:32-35 | the event is untriggered and its reset mode is kept |
| SingleThreadEvents.AfterWait | ATask/public/SingleThreadEvent.h:37-42 | on a triggered event: it stays triggered exactly when it is manual-reset, and the mode is kept |
| SingleThreadEvents.TriggerWaitCycle | ATask/public/SingleThreadEvent.h:27-42 | an auto-reset event consumes a trigger on Wait, and a manual-reset one keeps it; Reset after Trigger equals Reset alone; Trigger is idempotent; Reset after Trigger restores an untriggered event |
| SingleThreadEvents.SingleThreadEvent.constructor | ATask/public/SingleThreadEvent.h:8-13 | a new event is untriggered and auto-reset |
| SingleThreadEvents.SingleThreadEvent.Create | ATask/public/SingleThreadEvent.h:16-20 | records the manual-reset flag (false when none is given), keeps the triggered flag and returns true |
| SingleThreadEvents.SingleThreadEvent.IsManualReset | ATask/public/SingleThreadEvent.h:22-25 | returns the recorded mode |
| SingleThreadEvents.SingleThreadEvent.Trigger | ATask/public/SingleThreadEvent.h:27-30 | the state moves as AfterTrigger says |
| SingleThreadEvents.SingleThreadEvent.Reset | ATask/public/SingleThreadEvent.h:32-35 | the state moves as AfterReset says |
| SingleThreadEvents.SingleThreadEvent.Wait | ATask/public/SingleThreadEvent.h:37-42 | requires a triggered event (the assertion), returns true, and the state moves as AfterWait says |
| ThreadManagers.Added | ATask/private/ThreadManager.cpp:5-13 | binds the id to the thread only when it is absent; an existing binding is kept and every other entry is unchanged |
| ThreadManagers.Erased | ATask/private/ThreadManager.cpp:20-24 | the id is unbound and every other entry is unchanged (an absent id is a no-op) |
| ThreadManagers.EraseUndoesAdd | ATask/private/ThreadManager.cpp:5-24 | removing a freshly added id restores the registry |
| ThreadManagers.AddIdempotent | ATask/private/ThreadManager.cpp:8-12 | adding an id that is already bound changes nothing, so a second add has no effect |
| ThreadManagers.ThreadManager.constructor | ATask/public/ThreadManager.h:13 | the registry starts empty |
| ThreadManagers.ThreadManager.AddThread | ATask/private/ThreadManager.cpp:5-13 | the registry becomes Added(old, id, thread) |
| ThreadManagers.ThreadManager.RemoveThread | ATask/private/ThreadManager.cpp:20-24 | the registry becomes Erased(old, id) |
| ThreadManagers.ThreadManager.GetThreadName | ATask/private/ThreadManager.cpp:26-30 | the empty string for every id |
| ThreadBaseManagers.Inserted | ATask/Thread/ThreadBase.cpp:17 | std::map insert: binds the id only when it is absent and never overwrites |
| ThreadBaseManagers.AddAsWrittenChangesNothing | ATask/Thread/ThreadBase.cpp:11-19 | as written, AddThread leaves the registry unchanged for every input |
| ThreadBaseManagers.AddAsWrittenRegistersNothing | ATask/Thread/ThreadBase.cpp:11-19 | on an empty registry, the as-written add of id 1 registers nothing, while an insert would bind it |
| ThreadBaseManagers.RemoveUndoesInsert | ATask/Thread/ThreadBase.cpp:21-32 | removing a thread just inserted under an id below its other ids restores the registry |
| ThreadBaseManagers.RemoveKeepsOthers | ATask/Thread/ThreadBase.cpp:21-32 | RemoveThread keeps every other entry, keeps every entry of another thread, and drops at most one entry of the given thread |
| ThreadBaseManagers.ThreadManager.constructor | ATask/Thread/ThreadManager.h:9 | the registry starts empty and nothing has been ticked |
| ThreadBaseManagers.ThreadManager.AddThread | ATask/Thread/ThreadBase.cpp:11-19 | as written: the registry becomes AddedAsWritten(old, id, thread), that is, stays the same |
| ThreadBaseManagers.ThreadManager.AddThreadIntended | ATask/Thread/ThreadBase.cpp:11-19 | corrected: the registry becomes Inserted(old, id, thread) |
| ThreadBaseManagers.ThreadManager.RemoveThread | ATask/Thread/ThreadBase.cpp:21-32 | the map loop erases the lowest-keyed entry whose thread is the given one, or nothing |
| ThreadBaseManagers.ThreadManager.Tick | ATask/Thread/ThreadBase.cpp:34-46 | never changes the registry; ticks every registered thread in id order exactly when multithreading is unsupported |
| ThreadBaseManagers.ThreadManager.GetThreadName | ATask/Thread/ThreadBase.cpp:48-58 | the registered thread's name, or the empty string for an unregistered id |

## Left out

- Concurrency in the lock-free lists is not modelled: the interleavings and retries of the compare-and-swap loops, the cooperative tail fixing of the FIFO (`LockFreeList.h:530-536`, `572-582`), and the ABA and lost-wake-up races. One thread runs each operation to completion, so the counters are modelled only as arithmetic.
- `WindowsPlatformAtomics.h` is not part of this model. Its interlocked operations are taken as sequential reads and writes with 32-bit two's-complement wrap-around.
- Memory allocation is not modelled: `malloc`/`free`, the stats hook and the page-install race in `GetRawItem`. Pages are a set of page numbers.
- The two hooks are recorded, not executed. The overflow hook (a sleep) is the `Overflowed` flag. The exhaustion hook (an empty body) is the `LinksExhaustedReported` field.
- Past exhaustion, the source constructs links beyond its page table, which its own assertion forbids. `LinkAllocation.LinkAllocator.Alloc` constructs nothing in that case.
- `LinkCaches.LinkCache.Pop` and the list operations that allocate require that a needed fresh batch of 64 still fits below MAX_LOCK_FREE_LINKS. The exhaustion path is not followed further.
- All lists share one link cache and one arena, used by one calling thread. The per-thread TLS slot therefore holds at most one record; other threads' caches are not modelled.
- `FIFOLists.FIFOBase.constructor` takes TABAInc positive. The FIFO's static assertions also let 0 through (0 & (0 - 1) is 0), which would leave the counter constant, so that instantiation is not modelled.
- `TLockFreePointerListLIFOPad`, `TLockFreePointerListLIFO`, `TLockFreePointerListUnordered` and `TLockFreePointerListFIFO` only forward to the base lists, so they have no members of their own here.
- The stalling queue's per-priority FIFOs are held as sequences of payloads, not as link chains in the arena; the FIFO link machinery is modelled separately in `FIFOLists`.
- The FIFO class has no `Reset` in the source, so none is modelled.
- `LIFOLists.LIFOBase.PushIf` does not model the free-on-refusal path. With one thread, the callback allocates a link only when it accepts, and then the push succeeds, so that branch cannot run.
- The blocking `Wait` on a restart event is modelled in two cases:
  - on a triggered event, it consumes the signal;
  - on an untriggered one, the thread blocks and the model's run ends with outcome `Parked`.
  Wake-ups by other threads are interleavings and are not modelled.
- `TaskGraphs.NamedTaskThread.ProcessTasksUntilQuit` models one pass of the do-while. It proves that the repeat condition is false after every outcome except `Parked`, where the thread is blocked.
- Task execution is opaque. Its only effect here is a quit request (return or shutdown) made of its own thread, given as the function `effect`. New tasks that a task creates are not modelled.
- The recursion-guard increments and decrements sit inside `assert`s and run only in debug builds. The model runs them, and requires the guard to be 0 on entry, as the assertion does.
- The named thread's events come from the event pool. They are modelled as present (`HasEvent`) and untriggered at creation; `EventPool.h` is not part of this model.
- The any-thread worker's `ProcessTasksUntilQuit`, `ProcessTasksUntilIdle`, `ProcessTasks` and `FindWork` are not modelled: `FindWork` returns null in the source, so these loops have no behaviour left beyond the guard. `StallForTunning` takes an OS lock and is not modelled either.
- `TaskGraphs.GetCurrentThread` does not model the worker-array consistency assertion (`Thread(i).GetThreadId() == i`). The TLS record is given as the thread's index, or as none.
- `MAX_THREADS` and `MAX_THREAD_PRIORITIES` are constants. `FTaskGraphImplemention`'s constructor and `QueueTask` are empty, so only the thread layout fields are modelled, as a datatype.
- `FThreadManager::RemoveThread(FRunnableThread*)` in `ThreadManager.cpp` is not modelled: its body is only an assertion that always fails.
- The `FScopeLock` critical sections around the registries are not modelled, because only one thread is modelled.
- ThreadBaseManagers.ThreadManager: ids are `uint32` in the source but natural numbers here, because no arithmetic is done on them.
- Thread objects are opaque handles (natural numbers). A thread's `Tick` is recorded in a log, and its name is a function from handle to string.
- `ThreadManagers.ThreadManager.GetThreadName` and `ThreadBaseManagers.ThreadManager.GetThreadName` return a string value where the source returns a reference to a static string.

## Findings

| source | as written | input that shows it | evidently intended | confidence | as-written member | corrected member |
|---|---|---|---|---|---|---|
| ATask/public/LockFreeList.h:151-159 | `AdvanceCounterAndState` passes From's counter-and-state plus TABAInc to `SetCounterAndState`. `SetAll` asserts that value is below 2^38 (line 127), so in a debug build the wrap the overflow check is written for fails the assertion before the hook can run | From's counter-and-state 2^38-1, TABAInc 1 | the counter wraps modulo 2^38 and the overflow hook runs | not executed | IndexedPointers.AdvanceCounterAndStateAsWritten, IndexedPointers.CounterWrapTripsAssertion | IndexedPointers.AdvanceCounterAndState, IndexedPointers.AdvanceCountsOneStep |
| ATask/public/TaskGraphInterface.h:90-99 | the third clause of the assertion, `!(TaskPriority & TaskPriorityMask) != ThreadPriorityMask`, compares a boolean with 0xC00 and is always true, so an invalid thread priority 0xC00 is accepted | ThreadAndIndex 0, ThreadPriority 0xC00, TaskPriority 0 | `(ThreadPriority & ThreadPriorityMask) != ThreadPriorityMask`, as `SetThreadPriority` asserts at line 115 | not executed | NamedThreads.SetPrioritiesCheckAdmitsInvalidPriority | NamedThreads.SetPriorities, NamedThreads.SetPrioritiesCheckStrengthens |
| ATask/Thread/ThreadBase.cpp:11-19 | `AddThread` inserts only when the id is already present (`Threads.end() != Threads.find(...)`), and `std::map::insert` never overwrites, so no thread is ever registered | an empty registry, id 1, any thread | insert when the id is absent, as the "add" documentation in `ATask/Thread/ThreadManager.h:15-20` says | not executed | ThreadBaseManagers.ThreadManager.AddThread, ThreadBaseManagers.AddAsWrittenRegistersNothing | ThreadBaseManagers.ThreadManager.AddThreadIntended, ThreadBaseManagers.RemoveUndoesInsert |
