# Verified models of ReactOS kernel protocols and algorithms

This project models four parts of the ReactOS kernel whose correctness rests on arguments that
the code only states in comments and assertions, and proves those arguments for every input,
every interleaving and any number of threads.

- **The file cache** (`ntoskrnl/cc`). `VacbProtocol` is a state machine of writers, flushers, the
  trimmer, the purger and threads that race to create the same view; a step is one critical
  section, one unlocked read of `Dirty`, one interlocked decrement or one call of the memory
  manager, and `VacbFates` says what becomes of every write and every request for a view in its
  runs. `VacbTable` and `VacbList` hold the critical sections as they change lists and counts
  in place. `FlushRange` and `ChunkedIo` are the loops of `CcFlushCache`, `CcCopyRead`,
  `CcCopyWrite` and `CcZeroData`; `DeferredWrites` is `CcPostDeferredWrites`. `WorkerPool` and
  `LazyScans` are the lazy writer's scheduler.
- **The registry's key control blocks** (`ntoskrnl/config`). `KcbTree` and `KcbCache` are the
  reference-counted tree with its hash chains, delayed closes and deferred dereferences, and
  `KcbRuns` is every run of their operations from an empty cache on, with `KcbClosing` for the
  order of the delayed closes; `KeyPath` splits and hashes paths; `NameBlocks` keeps names once;
  `KcbRevival` is the protocol by which threads take an unreferenced key control block back into
  use although they hold its lock shared only; `KcbOrder` sorts lock indices and `KcbLocking` shows
  that threads which use them never deadlock; `Slab` is the page allocator below.
- **Protocols**. `CallbackRundown` is the registry-callback list with its rundown references down to
  the compare-and-exchange loops, and `CallbackWalks` says which callbacks a walk over it calls;
  `IrpCancel` is the queue/dequeue/cancel protocol for IRPs over the doubly linked list of `IrpList`.
- **Boot-driver ordering** (`ntoskrnl/config/cmboot.c`). `TagOrder`, `GroupOrder` and `DriverOrder`
  follow the three sorts of the driver list, from the registry's enumeration to the load order.

`Common`, `Seqs` and `Drivers` hold what several of these share. `dafny verify dfyconfig.toml` checks the
whole project.

Conventions. Runs are sequences of states and steps of any length. In the machines in which memory
can be freed, a step that touched freed memory could be followed by any state at all; the run
theorems show that no step does. Allocation results, statuses of the memory manager, hash
functions and case mapping are parameters that may be anything (the case mapping is assumed to be
the one that the hash uses only where a theorem says so).

Where the code does not meet what its comments or names promise, the model follows the code and
says exactly when the promise holds:

- A waiter of `CcWaitForCurrentLazyWriterActivity` can be left with no scan to come. That happens at
  exactly two kinds of step: the last scan, having found no deferred writes, clears `ScanActive`
  while a waiter that came after the drain is listed and neither the timer nor a queued scan is
  there; or the timer's routine gets no work item while a waiter is listed and no other scan is
  queued or running. The waiter is then taken up only by a step that starts another scan
  (`LazyScans.LeftExactly`, `LazyScans.WaitersLeft`, with a run for either kind in
  `LazyScans.WaiterLeftBehind` and `LazyScans.NoItemForWaiter`).
- `CcPurgeCacheSection` leaves a view that lies wholly inside its range exactly when the view ends
  where the range ends (`VacbList.LeftInside`, `VacbList.FirstViewLeft`).
- `CcPostDeferredWrites` puts writes that must wait back in reverse. The queue loses its first-in
  first-out order exactly when the first write that is refused limits modified pages and a later
  one is refused too (`DeferredWrites.OrderKept`, with two writes that change places in
  `DeferredWrites.TwoChangePlaces`).
- A name is found again in the block that `CmpGetNameControlBlock` made for it exactly when upcasing
  each stored character, cut to eight bits where the name is compressed, gives the upper case of the
  character that it came from (`NameBlocks.FoundAgain`); with U+00FF and U+0178 it does not
  (`NameBlocks.WideUpcase`). The comparison agrees with equality of upcased names for all names
  exactly when this holds for all characters and no eight-bit character shares its upper case with
  a wider one (`NameBlocks.FaithfulExactly`).
- `CcCopyWrite` and `CcZeroData` leave bytes in a view that is not marked dirty exactly when the copy
  faults after its first byte or `MmMakeSegmentDirty` fails (`ChunkedIo.CachedFile.WriteTurn`);
  `CcCopyRead` reads nothing and reports success when offset plus length overflows.
- `CmpLookInCache` searches all levels of a path but can only ever match the first name, because
  `CmpCompareSubkeys` compares one KCB with all entries and takes its parent
  (`KcbCache.OnlyFirstName`); its documentation describes a match of several levels.
- `CmpDelayDerefKeyControlBlock` forgets a reference when no delay item can be had. An operation
  leaks exactly when it is to put off the dereference of a last reference and gets no item
  (`KcbRuns.LeaksExactly`); the KCB then stays for ever (`KcbRuns.LeakedForGood`). Once all handles,
  deferred dereferences and delayed closes are gone, no KCB is left exactly if none of the
  operations has leaked (`KcbRuns.AllGone`).
- `CmpCreateKeyControlBlock` dereferences a parent that is not there exactly when a new root key gets
  memory for its KCB and none for its name (`KcbCache.KcbTable.CreateKcb`,
  `KcbCache.FirstRootFaults`).
- The assertion of `CmpComputeHashValue` that a name follows each separator fails exactly for paths
  that have a name and end in a separator (`KeyPath.ComputeHashValue`, `KeyPath.TrailingSeparator`);
  `CmpParseKey` takes such separators off first (`KeyPath.StripSeparators`). Of a path of separators
  alone, for which it was written, it is not reached.
- `CmpGetNextName` sees no name in a path that starts with a NUL, while `CmpComputeHashValue` sees
  one in every such path; on all other paths the two agree (`KeyPath.WalkNames`,
  `KeyPath.NulHidesNames`).
- A group that the ServiceGroupOrder value names more than once stands at its first place
  (`GroupOrder.ArrangedByGroup`), and a value without its second terminator spells the same list as
  one that has it (`GroupOrder.SpelledNames`).

## Model

| member | source | states |
|---|---|---|
| VacbProtocol.RunInv | ntoskrnl/cc/view.c:494-877 | In every state of every run the invariant holds (reference counts, lists, page count, thread knowledge, coverage of unflushed writes), and no step of any thread uses a freed VACB |
| VacbFates.WriteFate | ntoskrnl/cc/copy.c:627-664 | In every run a write, from the step that copies its bytes into a view that is clean or dirty already, is unflushed until a step writes it out or gives it up, and exactly until then; all that time it is covered |
| VacbProtocol.NoWriteLost | ntoskrnl/cc/view.c:162-226 | Until some step writes it out or gives it up, every unflushed write belongs to a dirty VACB, or to a writer that will still mark it, or to a flusher that saw it marked and has yet to flush or re-mark, despite the unlocked read of Dirty and failing flushes; a write is given up only by a purge of its view, or where a writer raises or a deleted dirty view fails to flush and no other dirty view or thread answers for it |
| VacbFates.DiscardedExactly | ntoskrnl/cc/fs.c:223-266 | In every run exactly the writes that a step gave up while they were unflushed are on record as discarded |
| VacbFates.RightView | ntoskrnl/cc/view.c:880-1058 | In every run a thread that asks for a view of a point of a file comes out with a VACB that covers it, or gives up for want of memory, whatever others create, evict, purge or delete meanwhile |
| VacbFates.RecentBehind | ntoskrnl/cc/view.c:723-768 | In every run, of two listed VACBs the one that was touched, inserted or newly marked last stands behind the other on the LRU list |
| VacbFates.GoesOn | ntoskrnl/cc/view.c:162-226 | Every step takes its thread on along the code's paths |
| VacbProtocol.StepCount | ntoskrnl/cc/view.c:640-677 | Every step keeps, for every VACB: one reference for list membership or a private free list, one if dirty, one per holder; and no reference to a VACB that is not there |
| VacbProtocol.FreedAlone | ntoskrnl/cc/view.c:76-97 | A VACB is freed only with one reference, by its only keeper, off the lists, with no holder, and clean unless it is flushed just before; so the decrement in unmarking never frees |
| VacbProtocol.StepSafe | ntoskrnl/cc/view.c:723-877 | Under the invariant no step that a thread can take touches a freed VACB, whether it was found in a list or remembered |
| VacbProtocol.StepLists | ntoskrnl/cc/view.c:944-1009 | Every step keeps the per-file lists ascending, aligned and in agreement with the LRU list, the dirty list in agreement with the flags, and the dirty pages at 64 per dirty VACB |
| VacbProtocol.OneVacbPerChunk | ntoskrnl/cc/view.c:944-1009 | Threads that race to create the same view never leave two listed VACBs for one part of a file |
| VacbProtocol.AtRest | ntoskrnl/cc/view.c:723-818 | When all threads are idle, VACBs are exactly the listed ones with one reference, two if dirty; every write not on disk belongs to a VACB on the dirty list; with no dirty pages everything is on disk |
| VacbTable.Table.DecRef | ntoskrnl/cc/view.c:76-97 | The decrement that frees at zero is the atomic operation of the protocol |
| VacbTable.Table.MarkDirty | ntoskrnl/cc/view.c:723-768 | The in-place marking, with its early return for a VACB already dirty, is the protocol's operation |
| VacbTable.Table.UnmarkDirty | ntoskrnl/cc/view.c:770-818 | The in-place unmarking is the protocol's operation and returns whether the VACB was dirty |
| VacbTable.Table.FreeOneUnused | ntoskrnl/cc/view.c:820-877 | Frees exactly the first VACB in LRU order that has fewer than two references, and fails only if there is none |
| VacbTable.Table.TrimScan | ntoskrnl/cc/view.c:518-585 | Takes exactly the VACBs with fewer than two references off the lists, in LRU order, and counts 64 pages each up to the target |
| VacbList.CacheMap.Lookup | ntoskrnl/cc/view.c:697-720 | On an ascending list the early-exit lookup agrees with a search of the whole list |
| VacbList.CacheMap.FindOrInsert | ntoskrnl/cc/view.c:947-1004 | Returns the view that covers the point, or inserts a new one so that the list stays ascending |
| VacbList.FoundOnce | ntoskrnl/cc/view.c:697-715 | Aligned ascending views cover each point at most once |
| VacbList.InsertedAscending | ntoskrnl/cc/view.c:984-1004 | Insertion behind the last smaller view keeps the list aligned and strictly ascending |
| VacbList.CacheMap.Purge | ntoskrnl/cc/fs.c:223-266 | Despite its early break the purge takes exactly the purgeable views before the first purgeable one in use; it succeeds if and only if none of them is in use, and then takes all; the list stays ascending |
| VacbList.LeftInside | ntoskrnl/cc/fs.c:234-243 | A view wholly inside the range is left behind if and only if it ends exactly where the range ends |
| VacbList.FirstViewLeft | ntoskrnl/cc/fs.c:238-243 | A concrete purge that leaves a view wholly inside its range |
| FlushRange.FlushCache | ntoskrnl/cc/view.c:1183-1317 | For every start and length: overflow exactly when the sum overflows; success if and only if every turn that the range needs succeeds, and then every byte lies in some flush, including the exit where adding the granularity overflows; failure at the first turn that fails, with everything before it flushed; what each turn flushes is exact and stays inside one view; the loop ends |
| FlushRange.PartCovers | ntoskrnl/cc/view.c:1271-1287 | What one turn flushes reaches from the current offset to the end of the view or of the range |
| FlushRange.LastChunk | ntoskrnl/cc/view.c:1300-1304 | Where the addition overflows, the current view is the last one that a 63-bit offset can have |
| ChunkedIo.CachedFile.CopyWrite | ntoskrnl/cc/copy.c:593-675 | TRUE if and only if offset plus length does not overflow and every turn goes well; then the flat file is the old one with the buffer spliced in. Otherwise the first turn that fails fixes the exit and how many bytes have been written. Exactly the views of the completed turns are marked, and no view is held more than before |
| ChunkedIo.CachedFile.ZeroData | ntoskrnl/cc/copy.c:893-930 | TRUE if and only if every turn goes well; then exactly the range is zero. Otherwise the first turn that fails fixes the exit and how long the zeroed prefix is. Nothing else has changed, exactly the views of the completed turns are marked, and no view is held more than before |
| ChunkedIo.CachedFile.CopyRead | ntoskrnl/cc/copy.c:488-586 | The buffer is a prefix of the flat file's bytes at the offset; TRUE with all of them if and only if every turn goes well, and otherwise the first turn that fails fixes the exit and the prefix; offset plus length wraps round, and then TRUE comes with nothing read; no view is held more than before |
| ChunkedIo.CachedFile.ReadTurn | ntoskrnl/cc/copy.c:520-556 | One turn goes on if and only if its view can be had and made resident and the copy does not fault; otherwise how it ends and how many bytes it has copied is exact |
| ChunkedIo.CachedFile.WriteTurn | ntoskrnl/cc/copy.c:627-664 | One turn goes on if and only if every part of it succeeds; otherwise it marks nothing, and how many bytes it leaves behind is exact |
| ChunkedIo.WriteInChunk | ntoskrnl/cc/copy.c:630-645 | A copy into one view changes exactly its bytes of the flat file |
| DeferredWrites.WriteQueue.PostDeferredWrites | ntoskrnl/cc/copy.c:72-127 | Posts exactly the writes of the specified pass and leaves the kept ones reversed in front of the untried ones |
| DeferredWrites.PassConserves | ntoskrnl/cc/copy.c:80-118 | Every write is posted, kept or left untried, once |
| DeferredWrites.PassExactly | ntoskrnl/cc/copy.c:72-118 | The pass tries the queue up to the first write that is refused and does not limit modified pages; of those it posts exactly the ones agreed to and keeps the ones refused, both in queue order, and leaves the rest as it stands |
| DeferredWrites.TriesOnce | ntoskrnl/cc/copy.c:80-118 | Queue and answers determine how many writes are tried |
| DeferredWrites.PassStops | ntoskrnl/cc/copy.c:110-118 | Writes stay untried only behind a kept one that does not limit modified pages, and the pass goes on behind every other |
| DeferredWrites.OrderKept | ntoskrnl/cc/copy.c:80-126 | The order of the queue is kept if and only if it is not the case that the first refused write limits modified pages and a later one is refused |
| DeferredWrites.KeepsTwo | ntoskrnl/cc/copy.c:110-118 | A pass puts back two writes or more under exactly that condition on the queue and the answers |
| DeferredWrites.TwoChangePlaces | ntoskrnl/cc/copy.c:80-126 | Two writes that limit modified pages and are both refused change places |
| WorkerPool.WorkQueues.PostWorkQueue | ntoskrnl/cc/lazywrite.c:52-91 | The in-place critical section is the protocol's posting step |
| WorkerPool.WorkQueues.WorkerLook | ntoskrnl/cc/lazywrite.c:264-319 | The in-place critical section of the worker loop is the protocol's look at the queues: express before regular, each from its head, SetDone left where it is while others work, the throttle as the protocol has it |
| WorkerPool.RunInv | ntoskrnl/cc/lazywrite.c:236-370 | In every run: active workers are counted right, a non-empty queue has an active worker, a set throttle has an active worker that will drop it or meets SetDone (`RunsOnce` and `TakenInOrder` say what becomes of the items) |
| WorkerPool.SetDoneIsBarrier | ntoskrnl/cc/lazywrite.c:264-348 | When a worker takes a SetDone item no other worker has an item in hand and every item posted to the regular queue before it has finished |
| WorkerPool.RunsOnce | ntoskrnl/cc/lazywrite.c:264-348 | In every state of every run each item posted to either queue is finished, in the hands of exactly one worker, or queued exactly once: none is lost, none runs twice |
| WorkerPool.AllFinished | ntoskrnl/cc/lazywrite.c:264-348 | Where no worker can move every item ever posted has been finished |
| WorkerPool.TakenInOrder | ntoskrnl/cc/lazywrite.c:275-312 | In every run the items of one queue are taken in posting order, and a regular item only while the express queue is empty |
| WorkerPool.AsPosted | ntoskrnl/cc/lazywrite.c:52-91 | In every run the work that is queued or in hand is the work that was posted with that ticket to that queue |
| WorkerPool.PostWakes | ntoskrnl/cc/lazywrite.c:66-85 | A post puts one more worker to work exactly if it is not throttled and some worker rests |
| WorkerPool.SetDoneThrottles | ntoskrnl/cc/lazywrite.c:281-292 | A worker that finds SetDone while others work turns the throttle on, leaves the item and rests |
| WorkerPool.ThrottleLasts | ntoskrnl/cc/lazywrite.c:264-348 | In every run the throttle goes off only when the worker that has finished a SetDone item looks at the queues again |
| WorkerPool.IdleInOrder | ntoskrnl/cc/lazywrite.c:66-85 | Workers are woken in the order in which they went to rest |
| WorkerPool.NoStuckWork | ntoskrnl/cc/lazywrite.c:264-348 | In a state of a run in which no worker can move, both queues are empty, the throttle is off and all workers are idle |
| WorkerPool.IdlePlusActive | ntoskrnl/cc/lazywrite.c:52-91 | Idle plus active workers is always the number of workers |
| WorkerPool.QuietPoolRests | ntoskrnl/cc/lazywrite.c:264-348 | Without new items the workers take at most as many steps as the backlog allows |
| LazyScans.LeftExactly | ntoskrnl/cc/lazywrite.c:93-208 | A step leaves waiters with no scan to come or running if and only if it is the last scan's clearing of ScanActive behind late waiters, or a timer without a work item and without another scan; they are taken up again if and only if a step starts a scan |
| LazyScans.WaitersLeft | ntoskrnl/cc/lazywrite.c:93-208 | In every state of every run somebody waits for a scan that does not come if and only if such a step has happened and no scan was started since |
| LazyScans.WaiterLeftBehind | ntoskrnl/cc/lazywrite.c:185-207 | A run in which a waiter comes between the drain and the clearing of ScanActive and is left |
| LazyScans.NoItemForWaiter | ntoskrnl/cc/lazywrite.c:93-114 | A run in which a waiter is left because the timer's routine gets no work item |
| LazyScans.WaitersReached | ntoskrnl/cc/lazywrite.c:376-414 | In a run all waiters always have a scan to come or running if and only if no such step happens |
| LazyScans.DrainReaches | ntoskrnl/cc/lazywrite.c:146-180 | A scan that drains the list posts the item of every waiter |
| LazyScans.WaitersKept | ntoskrnl/cc/lazywrite.c:391-413 | No step forgets a waiter: it stays listed until a scan posts its SetDone item |
| LazyScans.DeferredScannedAgain | ntoskrnl/cc/lazywrite.c:190-205 | In every run a scan that ends while writes are deferred arms the timer for the next one, and any other goes on to clear ScanActive |
| LazyScans.ScanFollows | ntoskrnl/cc/lazywrite.c:210-233 | Whoever marks data dirty or waits has a scan to come or running; a writer that must wait has the timer armed |
| LazyScans.PostedInOrder | ntoskrnl/cc/lazywrite.c:154-190 | Waiters are posted in the order in which they came, each once |
| IrpCancel.RunInv | media/doc/irp cancel boilerplate.c:10-103 | In every interleaving of queueing, dequeueing and cancelling: lock ownership, the linked queue, and exactly one party with the right to complete each IRP; no step follows a dangling list pointer |
| IrpCancel.CompletedOnce | media/doc/irp cancel boilerplate.c:32-103 | Every IRP is completed at most once, is uncompleted while queued, and once its cancel routine is cleared it is completed or exactly one thread is about to complete it |
| IrpCancel.AtRest | media/doc/irp cancel boilerplate.c:10-66 | When all threads are idle each IRP that was queued is either in the queue, cancellable and uncompleted, or completed exactly once (`CancelledLeaves` and `QueuedOrCompleted` say which) |
| IrpCancel.CancelledLeaves | media/doc/irp cancel boilerplate.c:32-54 | In every run an IRP for which cancellation was asked, before or after it was queued, is not in the queue when all threads are idle, and is completed if it was started |
| IrpCancel.QueuedOrCompleted | media/doc/irp cancel boilerplate.c:32-103 | In every run an IRP that was given to the queue routine is, when all threads are idle, queued, uncancelled and uncompleted, or completed once |
| IrpCancel.RightStatus | media/doc/irp cancel boilerplate.c:23-103 | In every run an IRP is completed as cancelled only if that was asked for, and with success only if a dequeuer took it off the head of the queue |
| IrpCancel.QueueInOrder | media/doc/irp cancel boilerplate.c:56-66 | In every run the queue is in the order in which the IRPs were put into it |
| IrpCancel.FirstOut | media/doc/irp cancel boilerplate.c:69-76 | In every run a dequeue takes the IRP that was queued first of those that are there |
| IrpCancel.StepGoesOn | media/doc/irp cancel boilerplate.c:10-103 | Every step brings its operation closer to its end and touches no other thread |
| IrpCancel.CancelRemovesOwnIrp | media/doc/irp cancel boilerplate.c:18-22 | The cancel routine's removal takes out its own IRP only, and changes no pointer if a dequeuer had taken it out before |
| IrpCancel.LateRemoval | media/doc/irp cancel boilerplate.c:75-88 | Removing the self-linked entry leaves the list memory as it is |
| IrpList.RemoveLinked | media/doc/irp cancel boilerplate.c:21-21 | RemoveEntryList on a linked ring is removal from the sequence that it represents |
| IrpList.ListMemory.RemoveEntryList | media/doc/irp cancel boilerplate.c:21-21 | The pointer assignments in their order are the modelled removal |
| CallbackRundown.RunInv | ntoskrnl/config/cmhook.c:58-198 | In every interleaving of walks, registrations and unregistrations, at the level of single compare-and-exchange operations, no step touches a freed entry or the wait block of a thread that has gone on |
| CallbackWalks.WalkCallsAll | ntoskrnl/config/cmhook.c:58-101 | In every run a walk in which no callback fails has called, when it ends, every registration that was listed and not marked for removal all the time, whatever others register or unregister |
| CallbackWalks.WalkInOrder | ntoskrnl/config/cmhook.c:69-94 | It calls them in list order |
| CallbackWalks.FailureEndsWalk | ntoskrnl/config/cmhook.c:90-94 | In every run no callback runs in a walk after one of them has failed |
| CallbackWalks.CallsLive | ntoskrnl/config/cmhook.c:72-80 | In every run a callback is started only while it is listed and not marked for removal |
| CallbackWalks.NeverRefused | ntoskrnl/config/cmhook.c:72-82 | In every run ExAcquireRundownProtection never refuses a walk; the walk calls the callback exactly when its compare-and-exchange finds the word unchanged |
| CallbackWalks.ListInOrder | ntoskrnl/config/cmhook.c:133-139 | In every run the list is in the order in which its entries were linked |
| CallbackWalks.UnregisterTakesOut | ntoskrnl/config/cmhook.c:149-198 | In every run unregistering a live registration has taken it out for good when the call returns; without one the call changes nothing |
| CallbackWalks.GoesOn | ntoskrnl/ex/rundown.c:36-377 | Every step brings its call closer to its end, or retries a compare-and-exchange because the word has changed, or goes on to a later entry |
| CallbackRundown.GoneForGood | ntoskrnl/config/cmhook.c:149-198 | After an unregister call has returned success, no thread that walks at an entry, protects, releases, signals, unregisters or registers one has that registration's entry, then or later, and no second call succeeds for it, even if its address is used again |
| CallbackRundown.AtRest | ntoskrnl/config/cmhook.c:159-197 | When all threads are idle each registration is either on the list, untouched, or was unregistered by exactly one call |
| CallbackRundown.NoLostWakeup | ntoskrnl/ex/rundown.c:197-377 | A waiting thread always has a protector left to release, or a signal under way, or its event signalled |
| CallbackRundown.WalkUndisturbed | ntoskrnl/config/cmhook.c:72-94 | The entry at which a walk stands, running or not, stays in the list and keeps its registration whatever other threads do |
| CallbackRundown.StepEntry | ntoskrnl/ex/rundown.c:36-56 | Every step keeps the rundown word equal to the number of protectors, before and after it has become a wait block |
| KcbOrder.SortKcbArray | ntoskrnl/config/cmkcbncb.c:1209-1254 | In place: the array ends strictly increasing with exactly the lock indices that it had |
| KcbOrder.DropDuplicate | ntoskrnl/config/cmkcbncb.c:1233-1250 | In the sorted array a duplicate is always the next element, so that the shift over the one before it loses no index |
| KcbOrder.BuildKcbArray | ntoskrnl/config/cmkcbncb.c:1300-1356 | For every array with room for what is put into it, the locks taken are those of the key, of every hash of the stack, and of the parent exactly when the match was complete, in increasing order |
| KcbOrder.ArrayFits | ntoskrnl/config/cmkcbncb.c:1320-1340 | The 34 elements of the parse routine's array are enough exactly for up to 32 names without the parent, or fewer with it; so they are for both callers |
| KcbOrder.TwoKeyPlan | ntoskrnl/config/cmsysini.c:2102-2128 | Both branches take the two locks in increasing order, once if they are the same |
| KcbOrder.TwoKeyRelease | ntoskrnl/config/cmsysini.c:2130-2167 | The release goes through the same locks in reverse |
| KcbLocking.NoDeadlock | ntoskrnl/config/cmkcbncb.c:1175-1195 | In every state of every run of any number of threads, shared or exclusive and under any waking policy, if a thread is not done some thread can go on |
| KcbLocking.WorkEnds | ntoskrnl/config/cmkcbncb.c:1143-1195 | Without new arrivals the threads take at most as many steps as they have work left, so that all of them finish |
| KcbLocking.MutualExclusion | ntoskrnl/include/internal/cm_x.h:108-130 | Two threads hold one lock only if both share it |
| KcbLocking.AtWork | ntoskrnl/config/cmkcbncb.c:1175-1195 | In every run a thread that is done with acquiring holds every lock of the plan that it came with, in the mode that it asked for |
| KcbLocking.AllReleased | ntoskrnl/config/cmkcbncb.c:1143-1155 | When all threads are done every lock is free and nobody waits: release undoes exactly what was acquired |
| KcbTree.Deref | ntoskrnl/config/cmkcbncb.c:604-637 | Dropping one handle, with the whole cascade through the parents, ends (by levels) in a cache that satisfies the invariant: references are children plus handles plus deferred dereferences plus leaks, unreferenced KCBs are exactly those on the delayed-close list, each live KCB is in its chain once |
| KcbTree.DerefFrees | ntoskrnl/config/cmkcbncb.c:474-637 | A dereference frees its KCB if and only if it was the last reference and lazy flushing is held, its hive is frozen, its key is deleted or no delay item can be had; beyond it only ancestors with a single reference for the same reasons, only under the registry lock; otherwise the parent's dereference may be deferred |
| KcbTree.DelayDeref | ntoskrnl/config/cmdelay.c:284-331 | The deferred dereference keeps the invariant; it queues, or leaks, exactly when the reference is the last one |
| KcbTree.RevivedInv | ntoskrnl/config/cmkcbncb.c:407-427 | Referencing a KCB that waits to be closed takes it off the list and restores the invariant |
| KcbTree.CreatedInv | ntoskrnl/config/cmkcbncb.c:790-835 | Linking a new KCB below a referenced parent keeps the invariant |
| KcbTree.ClosingLeaf | ntoskrnl/config/cmdelay.c:348-421 | With no handle, deferral or leak left, below every KCB there is one on the delayed-close list |
| KcbTree.AllClosed | ntoskrnl/config/cmdelay.c:56-186 | If that list is empty too, no KCB is left |
| KcbRuns.RunInv | ntoskrnl/config/cmkcbncb.c:355-893 | In every state of every run of references, dereferences with or without the registry lock, deferred ones, creations, deletions and closes from an empty cache: references are children plus handles plus deferred dereferences plus leaks, unreferenced KCBs are exactly those on the delayed-close list, each live KCB is in its chain once, and each has the hash of its name |
| KcbRuns.StepInv | ntoskrnl/config/cmdelay.c:56-331 | Each of these operations keeps that invariant, the hashes and the leaks |
| KcbRuns.LeaksExactly | ntoskrnl/config/cmdelay.c:284-331 | An operation leaks a reference if and only if it is to put off the dereference of a last reference, its own or that of the parent of a KCB that it frees without the registry lock, and no delay item can be had |
| KcbRuns.LeakedForGood | ntoskrnl/config/cmdelay.c:307-309 | In every run a KCB with a leaked reference stays in the cache, referenced and off the delayed-close list, for ever after |
| KcbRuns.AllGone | ntoskrnl/config/cmdelay.c:56-331 | In every run, when there is no handle, no deferred dereference and no delayed close, no KCB is left if and only if no operation has leaked |
| KcbClosing.LaterInFront | ntoskrnl/config/cmdelay.c:380-421 | In every run, of two KCBs on the delayed-close list the one that came later stands in front |
| KcbClosing.OldestAtTail | ntoskrnl/config/cmdelay.c:98-128 | In every run, wherever that list is cut, all KCBs behind the cut have waited longer than all in front of it; so closing from the tail closes the oldest |
| KcbClosing.StepOffList | ntoskrnl/config/cmkcbncb.c:615-632 | A KCB whose key is deleted or whose hive is frozen comes to be on the list exactly by a deletion while it waits |
| KcbClosing.NeverWaits | ntoskrnl/config/cmkcbncb.c:615-632 | In every run a KCB that was deleted while it did not wait, or made or referenced in a frozen hive, never waits to be closed |
| KcbClosing.FirstDeferredFirst | ntoskrnl/config/cmdelay.c:237-331 | In every run deferred dereferences are carried out in the order in which they were put off |
| KcbRuns.Reached | ntoskrnl/config/cmkcbncb.c:355-893 | Wherever a run leads, the invariant holds and the hashes are right; the methods of the cache promise to be such runs |
| KcbTree.LoadFalls | ntoskrnl/config/cmdelay.c:226-263 | Carrying out a deferred dereference lowers the summed levels of the deferred KCBs even if it defers another |
| KcbRevival.RunSafe | ntoskrnl/config/cmkcbncb.c:357-427 | In every interleaving of references under the shared or the exclusive lock, of unlocked and locked dereferences and of the delayed-close worker, no step touches a freed KCB or fails an assertion, and when the KCB is freed no other thread has a reference, the lock or a pointer |
| KcbRevival.AtRest | ntoskrnl/config/cmkcbncb.c:362-424 | When no thread is inside a routine the count is the number of handles, and the KCB is on the delayed-close list with index 0 if and only if that is zero |
| KcbRevival.StepInv | ntoskrnl/config/cmdelay.c:126-155 | Every step keeps the invariant: references are handles plus temporary ones, an index of 1 is owed by some thread, an unreferenced KCB is on the list unless the lock's owner is between two accesses |
| KcbRevival.FreedUnused | ntoskrnl/config/cmkcbncb.c:604-637 | A step frees the KCB only if all other threads are idle |
| KcbRevival.FreedExactly | ntoskrnl/config/cmdelay.c:126-155 | In every run the KCB is freed exactly by a last dereference that does not put the close off, or by the worker when it is on the list, unreferenced and at index 0; then it has no reference and is on no list |
| KcbRevival.LeavesList | ntoskrnl/config/cmkcbncb.c:407-427 | In every run it leaves the list exactly when it is freed, or when the lock's owner finds index 0 after referencing it |
| KcbRevival.KeptOnList | ntoskrnl/config/cmkcbncb.c:604-637 | A last dereference that puts the close off leaves it on the list at index 0 |
| KcbRevival.ReferenceSucceeds | ntoskrnl/config/cmkcbncb.c:357-427 | In every run a thread that has come for a reference has the KCB before it until it has its handle |
| KcbRevival.GetsHandle | ntoskrnl/config/cmkcbncb.c:357-427 | Every step of a reference brings it closer to its handle |
| KcbRevival.DropEnds | ntoskrnl/config/cmkcbncb.c:568-637 | Every step of a dereference, and of the worker, brings it closer to its end |
| KcbRevival.SharedCountKeeps | ntoskrnl/config/cmkcbncb.c:395-427 | In every run a reference counted under the shared lock never has to come back for the list |
| KcbRevival.WorkerComes | ntoskrnl/config/cmdelay.c:98-128 | The worker comes to a KCB on the list with the lock to itself |
| KcbCache.KcbTable.RemoveKeyHash | ntoskrnl/config/cmkcbncb.c:76-105 | The walk finds the KCB and unlinks it and nothing else |
| KcbCache.KcbTable.InsertKeyHash | ntoskrnl/config/cmkcbncb.c:107-144 | Returns the live KCB with the same hash, cell and hive, or links the new one at the head when there is none anywhere in the cache |
| KcbCache.KcbTable.Reference | ntoskrnl/config/cmkcbncb.c:355-427 | Fails exactly at 0xFFFF references, changing nothing; otherwise adds one handle and one reference, ends a pending close, and changes nothing else |
| KcbCache.KcbTable.Dereference | ntoskrnl/config/cmkcbncb.c:604-637 | The in-place code with its recursion is the specified dereference (whose list order, deferrals and frees `KcbClosing` and `DerefFrees` state) and keeps the cache valid |
| KcbCache.KcbTable.CleanUpKcb | ntoskrnl/config/cmkcbncb.c:474-513 | The in-place cleanup is the specified one |
| KcbCache.KcbTable.CreateKcb | ntoskrnl/config/cmkcbncb.c:653-893 | With the hash of the name below the parent: references the KCB that stands for the key and changes no other, or makes one below the parent, or undoes everything; exactly when each happens, including the limits of 512 levels and 0xFFFF references and failed allocations, and exactly when the code dereferences a parent that is not there; it is a run of operations |
| KcbCache.FirstRootFaults | ntoskrnl/config/cmkcbncb.c:853-862 | The first key of all, with memory for its KCB and none for its name, comes to that dereference |
| KcbCache.KcbTable.MarkDeleted | ntoskrnl/config/cmapi.c:1906-1911 | A deleted key's KCB leaves its chain and the cache stays valid |
| KcbCache.KcbTable.DelayDerefWorker | ntoskrnl/config/cmdelay.c:226-263 | Carries out all deferred dereferences, the first first, with those that arise meanwhile last; ends with none left, handles as they were, and only removed KCBs and lower counts |
| KcbCache.KcbTable.DelayCloseWorker | ntoskrnl/config/cmdelay.c:56-186 | Closes from the tail of the list, where those are that have waited longest, exactly as many as exceed the limit but at most a quarter of it |
| KcbCache.KcbTable.CloseTail | ntoskrnl/config/cmdelay.c:98-160 | Closes the tail of the list exactly when the list is over the limit and the tail still has the hash that was locked |
| KcbCache.OnlyFirstName | ntoskrnl/config/cmparse.c:1292-1351 | A KCB that the search accepts is a child of the base KCB, so it is accepted at the first stack index only |
| KcbCache.KcbTable.LookInCache | ntoskrnl/config/cmparse.c:1468-1656 | A hit is a live cached child with the first name and its hash, and leaves exactly the other names; a miss means that there is none or the base KCB is deleted; on success one handle more, on the KCB returned, and the cache is as if that KCB alone had been referenced (unless a child of a deleted base KCB was expunged); otherwise the cache is as it was; it fails only at 0xFFFF references, of the base KCB with the path as it was, or of the child with its name already taken off |
| KcbCache.NameIsEnough | ntoskrnl/config/cmparse.c:1506-1540 | In a cache whose KCBs have the hashes of their names, which every operation keeps, a live child is found exactly by its name, whatever its case |
| KcbRuns.KeyedForGood | ntoskrnl/config/cmkcbncb.c:679-709 | In every run each KCB has the hash of its whole path |
| KcbCache.KcbTable.QueryName | ntoskrnl/config/cmapi.c:1516-1609 | The two passes agree; the buffer gets the printed path of the parent chain, filled from its end to its front, and the three statuses depend on the length as documented |
| KcbCache.QueryParse | ntoskrnl/config/cmapi.c:1556-1600 | Splitting a printed path gives back the names from the root to the key |
| KeyPath.GetNextName | ntoskrnl/config/cmparse.c:19-71 | The next name, the rest of the path, the last flag and the limit of 512 bytes, for every path |
| KeyPath.WalkNames | ntoskrnl/config/cmparse.c:19-71 | Repeated calls yield exactly the names of the path, unless it starts with a NUL; they fail exactly at a name that is too long |
| KeyPath.NulHidesNames | ntoskrnl/config/cmparse.c:30-40 | The names that CmpGetNextName sees are not those of the path if and only if the path starts with a NUL |
| KeyPath.ComputeHashValue | ntoskrnl/config/cmparse.c:1149-1265 | For every path the stack holds the first 32 names in order, each with the hash of its KCB, and the total is right; its assertion holds if and only if the path has no name or does not end in a separator |
| KeyPath.TrailingSeparator | ntoskrnl/config/cmparse.c:1228-1234 | A path for which that assertion fails |
| KeyPath.StripSeparators | ntoskrnl/config/cmparse.c:1896-1903 | Taking separators off the end keeps the names and leaves a path for which the assertion holds |
| KeyPath.RemoveSubkeys | ntoskrnl/config/cmparse.c:1369-1403 | What is left of the path has exactly the names behind the matched ones |
| KeyPath.ConvKeyOf | ntoskrnl/config/cmkcbncb.c:679-709 | The hash of a new KCB is that of its name from its parent's, as the stack has it |
| KeyPath.PrintParse | ntoskrnl/config/cmapi.c:1556-1600 | Splitting inverts printing for all lists of non-empty names without separators |
| NameBlocks.ComparesNames | ntoskrnl/config/cmkcbncb.c:191-231 | Although lengths in characters and in bytes are compared with one another, the comparison finds in a sound block exactly the names that are equal to it when upcased, for every case mapping that keeps to eight bits |
| NameBlocks.FoundAgain | ntoskrnl/config/cmkcbncb.c:191-281 | For every mapping and name: the comparison finds the name in the block made for it if and only if each of its characters survives the stored form |
| NameBlocks.FaithfulExactly | ntoskrnl/config/cmkcbncb.c:191-281 | For every mapping: comparing any name with the block of any other agrees with equality of the upcased names if and only if upcasing is idempotent, also across the cut to eight bits, and no eight-bit character shares its upper case with a wider one |
| NameBlocks.WideUpcase | ntoskrnl/config/cmkcbncb.c:262-266 | A mapping from U+00FF to U+0178 makes a name differ from its own block |
| NameBlocks.NameTable.Get | ntoskrnl/config/cmkcbncb.c:146-302 | All spellings of a name share one block, made when there is none; it fails, changing nothing, exactly when there is none and no memory |
| NameBlocks.NameTable.Dereference | ntoskrnl/config/cmkcbncb.c:315-353 | The block goes exactly with its last user |
| NameBlocks.NameTable.Find | ntoskrnl/config/cmkcbncb.c:184-243 | The chain of the hash holds the block for the name if there is one anywhere |
| NameBlocks.CompareCompressed | sdk/lib/cmlib/cmname.c:109-145 | The result is zero exactly for names of equal length and equal upcased characters |
| Slab.Allocator.Allocate | ntoskrnl/config/cmalloc.c:197-263 | A block is handed out that nobody has, from the head of the list or from a new page; it fails exactly with an empty list and no page, changing nothing |
| Slab.Allocator.Free | ntoskrnl/config/cmalloc.c:265-303 | The page goes exactly when its last block in use returns, and then none of its blocks is on the free list |
| Slab.FewPages | ntoskrnl/config/cmalloc.c:51-195 | There are never more pages than blocks in use |
| Slab.FirstFreedFirst | ntoskrnl/config/cmalloc.c:205-303 | Blocks are handed out in the order in which they came back: returns go behind all others, and neither new nor freed pages change who is in front |
| Slab.WithoutPageInv | ntoskrnl/config/cmalloc.c:83-102 | A page whose count is full has all its blocks on the list; taking them off keeps the invariant |
| Slab.BlockInPage | ntoskrnl/include/internal/cm.h:123-126 | Blocks lie inside their page, and masking a block's address gives the page |
| Slab.BlocksApart | ntoskrnl/include/internal/cm.h:123-126 | Different blocks do not overlap |
| TagOrder.RelinkStep | ntoskrnl/config/cmboot.c:970-1010 | Putting a node one place too far left still lowers the inversions, or keeps them and removes the next descent |
| TagOrder.WalkBack | ntoskrnl/config/cmboot.c:975-1008 | One turn of the walk keeps the sorted prefix and comes closer in the lexicographic measure |
| DriverOrder.DriverList.OrderGroup | ntoskrnl/config/cmboot.c:951-1013 | The loop ends; the run is in ascending tag order, a permutation of itself, and nothing outside it has moved |
| DriverOrder.DriverList.ResolveDependencies | ntoskrnl/config/cmboot.c:1026-1074 | Every maximal run of one group is tag-sorted in place, and no driver crosses a run boundary |
| DriverOrder.DriverList.FindDrivers | ntoskrnl/config/cmboot.c:748-770 | Head insertion leaves the list in reverse enumeration order |
| DriverOrder.DriverList.MoveGroup | ntoskrnl/config/cmboot.c:851-871 | One pass moves the drivers of a group to the front in reverse and keeps the order of the others |
| DriverOrder.DriverList.ScanName | ntoskrnl/config/cmboot.c:839-849 | The right-to-left scan finds the bounds of the name before a position |
| DriverOrder.DriverList.SortByGroups | ntoskrnl/config/cmboot.c:824-879 | For every value that ends in a NUL the names that the scan finds are handled from last to first, which is the specified arrangement; any other value is refused |
| DriverOrder.DriverList.OrderBootDrivers | ntoskrnl/config/cmboot.c:898-949 | End to end: it succeeds if and only if the value ends in a NUL; for every such value, well-formed or not, the listed groups stand in the order of their first places, complete and tag-sorted, and behind them the other drivers with every run of one group tag-sorted; on failure the drivers stand in reverse enumeration order |
| GroupOrder.ScanFindsName | ntoskrnl/config/cmboot.c:835-849 | On a MULTI_SZ the scan finds exactly the next name from the right |
| GroupOrder.SpelledNames | ntoskrnl/config/cmboot.c:834-878 | The names found in the value of a list, with or without the second terminator, are the list |
| GroupOrder.ArrangedInOrder | ntoskrnl/config/cmboot.c:835-878 | Moving groups to the front from last to first gives the groups in list order with enumeration order restored inside each, then the unlisted drivers, reversed |
| GroupOrder.ArrangedByGroup | ntoskrnl/config/cmboot.c:835-878 | For a list that may repeat names the passes leave the groups in the order of their first places and the unlisted drivers behind them in the order that they had |
| GroupOrder.FirstNamesList | ntoskrnl/config/cmboot.c:851-871 | Which drivers are listed does not depend on repeated names |
| GroupOrder.MultiSzInjective | ntoskrnl/config/cmboot.c:826-852 | A MULTI_SZ determines its names |

## Left out

- CcRosDeleteFileCache: deleting a file's views is modelled only while no thread holds one of them (`ntoskrnl/cc/view.c` lets it race with a holder); its per-view parts are steps of their own.
- CcRosFlushDirtyPages: the choice of the next VACB is free in the model; the list cursor that is kept while the lock is dropped, temporary files, the flags against concurrent lazy writes and the page target are not modelled.
- MappedCount, ValidDataLength updates, per-file DirtyPages and the truncation branch of CcZeroData.
- Read-ahead, pinning (`ntoskrnl/cc/pin.c`), CcCanIWrite and write-through flushes; other threads at work on the deferred-write queue during a pass.
- CcRosCreateVacb: a creator that frees an unused view to make room is modelled as another thread doing so.
- VacbList.CacheMap.Purge: which views are in use is a parameter, fixed while the locks are held.
- FlushRange.FlushCache: offsets are non-negative; the call without a cache map and the update of the valid data length are not modelled.
- KcbCache and KcbRuns: operations are single critical sections under the exclusive KCB lock; how they interleave with shared locks and unlocked dereferences is the subject of KcbRevival, for one KCB.
- KcbRevival: reference counts do not overflow, and a freed KCB's memory is not used again.
- KcbCache.KcbTable.CreateKcb: fake keys and cached key data are not modelled; what happens after a fault is left open.
- KcbCache.KcbTable.MarkDeleted: what CmDeleteKey does to the hive is not modelled.
- Symbolic links as holders of references, security and value caches, CmpConstructName. KCBs have names of their own in KcbCache; NameBlocks shows that sharing them is sound. The 16-bit limit of a name block's count, which is only asserted, is not modelled.
- KcbLocking: lock conversion by callers that hold several locks, and the registry lock, are not modelled.
- Slab.Allocator: the fallback of CmpAllocateKeyControlBlock to single pool blocks is not modelled.
- CallbackRundown: what callback functions do; one that unregisters itself would wait for itself.
- IrpCancel: the queue is assumed non-empty when a dequeue starts, as the boilerplate assumes.
- DriverOrder: CmpAddDriverToList's failures and the hive reads behind it; the enumeration is a parameter. The scan reads the character before the buffer, which is a parameter too.
- Hive files, hive loading, values, notifications, quotas, system initialisation and everything outside the four parts above.
