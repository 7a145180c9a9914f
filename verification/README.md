# Verified models of Margo's concurrent core

Margo glues the Mercury RPC library to the Argobots threading library. This project models
the parts of it that are hard to get right by reading: protocols between threads, structures
threaded through memory, and counters on which scheduling and shutdown depend. Every model is
Dafny 4.11, and `dafny verify dfyconfig.toml` checks all of it.

| part | files |
|---|---|
| shared definitions, bit masks, raw memory, waiting times | `Common.dfy`, `Bits.dfy`, `Memory.dfy`, `Waiting.dfy` |
| shutdown handshake over one atomic word | `Shutdown.dfy`, `ShutdownHistory.dfy` |
| utlist doubly linked list, sorted timer queue | `DList.dfy`, `TimerQueue.dfy` |
| timer protocol as an interleaved step system | `TimerProtocol.dfy`, `TimerSafety.dfy`, `TimerHistory.dfy`, `TimerProgress.dfy`, `TimerOverlap.dfy` |
| request life cycle on top of the timer protocol | `Requests.dfy`, `RequestSafety.dfy`, `RequestHistory.dfy`, `RequestProgress.dfy` |
| earliest-first pool | `EfirstHeap.dfy`, `EfirstQueue.dfy`, `EfirstBound.dfy`, `EfirstAttained.dfy`, `EfirstHistory.dfy`, `EfirstPool.dfy` |
| two-level priority pool | `PrioQueue.dfy`, `PrioAttained.dfy`, `PrioHistory.dfy`, `PrioPool.dfy` |
| slab arena | `ArenaLayout.dfy`, `Arena.dfy` |
| registry of pools and xstreams | `Names.dfy`, `Registry.dfy`, `RegistrySafety.dfy`, `RegistryRuns.dfy`, `RegistryRefs.dfy`, `RegistryTable.dfy` |
| bulk pools and pool sets, handle cache | `BulkPool.dfy`, `BulkPoolset.dfy`, `HandleCache.dfy` |
| running statistics, RPC ids | `Statistics.dfy`, `RpcIds.dfy` |

**How concurrency is modelled.** The shutdown word, the timer protocol and the request life
cycle are step systems: one step per atomic access or critical section, any number of threads,
arbitrary interleaving. A run is a sequence of states joined by steps, and the theorems speak
about every index of every run. Weak compare-and-swap fails spuriously or on stale values, and
the 32-bit word wraps. For each step system there are three kinds of theorem: what never happens
(safety), what the state says about the history of the run (so a step can neither be skipped nor
happen unasked), and that everything under way can be brought to an end (progress). Structures that the program only touches under one mutex are classes
whose methods are the critical sections.

**How memory is modelled.** Nodes of linked structures are numbers with 0 for NULL, and their
fields are sequences indexed by node. The arena works on a flat byte memory with 8-byte
little-endian pointers. Clocks, `malloc`, Argobots and Mercury answers are parameters, and
`requires` clauses about them state those libraries' own contracts (a fresh block is disjoint
from the others, a new handle is new, an accepted operation completes once).

## What turned out not to hold

The models follow the code; where a promised property fails, a lemma exhibits the failing
input or run and another states when it holds.

- Two overlapping cancels of one timer can delete it twice: `margo_timer_cancel` clears the
  timer's links, in two plain stores, only after it has released the list mutex
  (`src/margo-timer.c:308-316`), so a second delete in between goes through stale links. It can
  put a timer whose own cancel has returned back into the queue, and its callback then runs
  (`OverlappingCancelsBreakSafety`), and between the two stores it cuts off the rest of the
  queue, so that a timer nobody canceled is lost (`HalfClearedDeleteLosesTimer`); both are runs
  from the initial state. `StaleUnlinkKeepsIff` and `StaleManyOneKeepsIff` say exactly when
  such a delete leaves a consistent state, and cancel safety is proved for every run in which
  all of them do; cancels may overlap in every other way.
- `margo_cb` reads `req->kind` again after it has set the eventual (`src/margo-core.c:895-916`).
  If the waiter has released the request and a callback-kind submission has drawn the same
  slot, the slot is released under its new user (`CarelessDrawIsFatal`). For a blocking call the
  request is a stack frame; once it is overwritten, the late test can release a stack address
  into the arena (`CarelessOverwriteIsFatal`). Both situations arise (`CarelessStepIsReachable`);
  the exact condition is `CarefulIffKept`.
- The ULT-creation failure path decrements the pending count without re-checking
  (`include/margo.h:2320-2328`) and can lose a finalize request (`LostFinalizeRun`; exact
  condition `AbandonLosesIff`). Teardown can be entered twice (`DoubleTeardownRun`; exact
  condition `TeardownOnceIff`).
- A failed `__margo_abt_add_external_xstream` takes uses off pools to which it never added any:
  the scheduler check fails first, and the clean-up then walks the registered pools in front of
  the unknown one (`src/margo-abt-config.c:700-743, 798-843`). A pool in use can then be removed
  under a running xstream (`FailedAddLosesPool`; exact condition `AddExternalXstreamKeepsIff`).
  With a NULL name the code can reach `strcmp` with NULL (exact condition in
  `Table.AddExternalXstream`). The NULL pool handle can be registered twice (`NullTwice`; exact
  condition `HandlesDistinctIff`). Giving back a reference that nobody took, by handle or by
  name, unlocks the registry's mutex twice (`src/margo-config.c:299-311`; exact condition in
  `Table.ReleasePool` and `Table.ReleaseXstream`).
- The result of `ABT_xstream_create` is not tested (`src/margo-abt-config.c:603-606`): an xstream
  that could not be created is counted and registered, and its removal does not count it off
  again, so its pools can never be removed (`UncreatedXstreamPinsPool`, `UncreatedPinsPools`).
  When the primary xstream does not accept its new scheduler, the clean-up takes off the uses
  of the old one (`FailedAddLosesPool`). The exact condition for both is `AddXstreamKeepsIff`.
- The sizes of a bulk pool set wrap modulo 2^64, and then the reported maximum is not the
  largest class (`WrappedSizes`; exact condition `FailsAboveMaxIff`).
- `round_up` wraps to 0 near the top of the address space, and the size of an arena block can
  wrap too (`SizesWrap`; exact conditions `RoundUpIff` and `RequestCoversIff`).
- Releasing an arena object that is free already closes the free list into a loop
  (`SecondReleaseLoops`); the arena is in order after a release if and only if the object was
  live (`Arena.ReleaseKeepsIff`).
- Releasing a bulk handle twice corrupts its pool (`SecondReleaseDuplicates`; exact condition
  `BulkPool.ReleaseKeepsIff`), and when nothing is checked out the release writes in front of
  the array (exact condition in `Pool.Release`).
- The running maximum starts at 0, so it is wrong exactly when all samples are negative
  (`MaxOfNegative`; exact condition `MaxIsGreatestIff`).
- `margo_destroy` acts on a reference count read earlier: two holders that both read 2 destroy
  a cached handle, and its heap-allocated data is given to the arena (`RacingDestroys`). It also
  does nothing for a handle whose instance is not set, so a cached handle whose data could not
  be set up in `margo_create` never comes back (`FailedCreate`). Exact conditions for both are
  in `MargoDestroy`. A handle given up after the cache was destroyed goes onto a list that
  nobody destroys (`LatePut`).
- A heap unit of priority p is returned within 2*(32*(p-1)+1) pops, but from a new pool that
  bound is reached only for p = 1. The exact one is 2*(max(31*(p-1), 32*(p-1)-16)+1)
  (`HeapUnitReturnedExactly`, `HeapBoundAttained`).

## Model

| member | source | states |
|---|---|---|
| `Shutdown.WordLayout` | src/margo-instance.h:105-114 | the flag test, the count mask and the or-mask of the packed word are exactly "flag", "count" and "set the flag, keep the count" |
| `Shutdown.NextKeepsInv` | src/margo-core.c:2388-2416 | every atomic step of any thread keeps: the count is the number of threads between admission and decrement, and after the gate was passed the bit is set and the count is zero |
| `Shutdown.ShutdownSafety` | src/margo-core.c:246-257 | once a finalizer saw a zero count, at every later point of the run the bit is set, the count is zero, nobody is admitted, and every admission attempt is refused, also with stale reads and spurious failures |
| `Shutdown.NextKeepsNotLost` | src/margo-core.c:2475-2485 | each step except the failed ULT creation keeps the finalize request in some thread's hands |
| `Shutdown.NoLostFinalize` | src/margo-core.c:241-257 | in every run completing through the post-wrapper hook, bit set and count zero imply that some thread passed the gate, is about to re-check, or is about to execute the gate |
| `Shutdown.RequestedFinalizeHappens` | src/margo-core.c:307-318 | when all threads have come to rest after a finalize request, somebody has entered teardown |
| `Shutdown.AbandonLosesIff` | include/margo.h:2320-2328 | the ULT-creation failure path loses the request if and only if it drops the last pending operation after the bit was set and no other thread carries the request |
| `Shutdown.LostFinalizeRun` | include/margo.h:2320-2328 | a concrete run that ends at rest with the bit set, nothing pending and no teardown |
| `Shutdown.DoubleTeardownRun` | src/margo-core.c:2483-2484 | a concrete run in which two threads both pass the gate |
| `Shutdown.TeardownOnceIff` | src/margo-core.c:246-257 | teardown is entered exactly once if and only if no thread executes the gate after the first one that passed it |
| `ShutdownHistory.NeverSpontaneous` | src/margo-core.c:2475-2485 | in every run, when the bit is set or a thread is in margo_finalize or beyond, some thread asked for finalization before |
| `ShutdownHistory.BitIffSet` | src/margo-core.c:2388-2416 | the bit is set exactly when one of the fetch_or operations was executed; increments and decrements never disturb it |
| `ShutdownHistory.RecheckIff` | src/margo-core.c:2484-2484 | a finished handler calls margo_finalize exactly when the bit was set before |
| `ShutdownHistory.GateIff` | src/margo-core.c:254-257 | margo_finalize tears down exactly when no operation is between admission and decrement, and otherwise returns |
| `ShutdownHistory.HandlerDefers` | src/margo-core.c:254-257 | a handler that calls margo_finalize never tears down itself |
| `ShutdownHistory.AdmissionIff` | src/margo-core.c:2394-2409 | an attempt is refused exactly when the bit was set before the last read, and admitted exactly when it was not, the word is unchanged since, and the swap does not fail spuriously |
| `ShutdownHistory.EveryRunCanFinish` | src/margo-core.c:2475-2485 | every run can go on without new requests until every thread is back or has torn down, and after a request without failed ULT creations somebody has torn down |
| `ShutdownHistory.CanAlwaysBegin` | src/margo-core.c:307-318 | an idle thread can begin any call, and a handler can finalize or fail to be created |
| `DList.DeleteRefines` | src/utlist.h:577-596 | DL_DELETE of the k-th node represents the sequence without its k-th element and leaves all other links alone |
| `DList.PrependRefines` | src/utlist.h:527-540 | DL_PREPEND represents the sequence with the node in front |
| `DList.AppendElemRefines` | src/utlist.h:676-695 | DL_APPEND_ELEM represents the sequence with the node right behind the given one |
| `DList.AppendToEmpty` | src/utlist.h:542-557 | DL_APPEND on the empty list gives the one-element list |
| `DList.RemoveRefines` | src/margo-timer.c:170-171 | delete followed by clearing the node's links represents the shorter sequence |
| `DList.StaleDeleteHarmlessIff` | src/utlist.h:577-596 | deleting a node that is no longer linked keeps the list if and only if its old neighbours are still neighbours |
| `DList.SameQueue` | src/utlist.h:577-596 | if the links still spell out a list after a node outside it was deleted, with no node lost and no linked node gained, it is the same list |
| `TimerQueue.InsertSorted` | src/margo-timer.c:218-254 | the backward walk inserts right behind all timers that expire strictly earlier; the list stays sorted and correctly linked |
| `TimerQueue.DispatchDue` | src/margo-timer.c:151-190 | the dispatch loop issues a prefix of the queue, all of it due, leaves only timers that are not due (nothing, without a time limit), and counts one pending ULT for each issued timer with a pool |
| `TimerQueue.TimerList.Start` | src/margo-timer.c:289-301 | refuses a queued, canceled or dying timer without any change; otherwise sets the expiration and queues at the sorted place |
| `TimerQueue.TimerList.CheckTimers` | src/margo-timer.c:151-190 | issues exactly the timers with expiration < now, each once, in ascending order, with exact pending counts |
| `TimerQueue.TimerList.DrainForFree` | src/margo-timer.c:108-149 | issues every queued timer exactly once, in order, and leaves the queue empty |
| `TimerQueue.TimerList.NextExpiration` | src/margo-timer.c:195-216 | the answer is the minimum over the queue, and there is none exactly when the queue is empty |
| `TimerQueue.TimerList.Unqueue` | src/margo-timer.c:303-316 | a queued timer is taken out and nothing else moves; a timer that is not queued changes nothing |
| `TimerSafety.NextKeepsInv` | src/margo-timer.c:69-96 | every step of dispatcher, list destruction, ULTs, starts, cancels and multi-cancels, overlapping cancels of one timer and the separate clearing of its two links included, keeps the links a well-formed queue and all flags and counters consistent; only a delete through harmful stale links is excluded |
| `TimerSafety.ReturnIsQuiet` | src/margo-timer.c:303-330 | when a cancel returns, the timer is not queued, not held by a dispatcher and has no unfinished ULT |
| `TimerSafety.QuietStays` | src/margo-timer.c:151-190 | a quiet timer stays quiet under every step except its own start |
| `TimerSafety.CancelSafety` | src/margo-timer.c:303-359 | in every run whose deletes through stale links are harmless, after a cancel or multi-cancel of a timer has returned no callback of it is running at any later point, inline or in a ULT, until it is started again |
| `TimerSafety.MarkedUltSkipsCallback` | src/margo-timer.c:69-96 | in every run, a ULT that starts after a cancel has set its timer's canceled flag and before a cancel clears it goes to its end without running the callback |
| `TimerSafety.CountsAreExact` | src/margo-timer.c:69-96 | in every reachable state a timer's count is the number of its unfinished ULTs and the list's count the number of ULTs that have not left |
| `TimerSafety.ListFreeQuiesces` | src/margo-timer.c:108-149 | once the list has been freed every timer ULT is gone and no callback of any timer runs at any later point |
| `TimerSafety.StaleUnlinkKeepsIff` | src/margo-timer.c:311-316 | a cancel that unlinks a timer while another cancel has unlinked it and not yet stored both of its NULL links leaves a state that some queue fits if and only if its delete is harmless: the old neighbours are still neighbours, a link it writes in an unqueued predecessor will still be cleared by a cancel that has yet to store next, and one in an unqueued successor by a cancel that has yet to store prev |
| `TimerSafety.StaleManyOneKeepsIff` | src/margo-timer.c:336-345 | the same for a timer that cancel_many takes off the list |
| `TimerSafety.StepsAreDefined` | src/margo-timer.c:151-190 | no step of a run dereferences NULL: the dispatcher can always pop a non-empty queue, and a cancel can take its timer off the list |
| `TimerHistory.CanceledIff` | src/margo-timer.c:303-330 | the canceled flag is set exactly when a cancel has marked the timer and none has cleared the mark since |
| `TimerHistory.UltRunsIff` | src/margo-timer.c:69-78 | a timer ULT runs the callback exactly when no mark of its timer is outstanding |
| `TimerHistory.EveryStartAccounted` | src/margo-timer.c:151-190 | each start ends in exactly one dispatch or one removal by a cancel, and is in the queue until then |
| `TimerHistory.EveryDispatchAccounted` | src/margo-timer.c:172-186 | each dispatched timer has its callback called by the dispatcher, or gets exactly one ULT, or is still in the dispatcher's hands |
| `TimerHistory.PoppedGoesOn` | src/margo-timer.c:172-186 | a popped timer goes on to its callback if it has no pool and to a ULT otherwise |
| `TimerHistory.MarksAreOwned` | src/margo-timer.c:327-328 | an outstanding mark will be cleared by a cancel in progress |
| `TimerHistory.StartNeeds` | src/margo-timer.c:291-295 | a start passes its checks only with no mark outstanding, no links, and no destruction begun, however cancels overlap |
| `TimerHistory.CanRestartIff` | src/margo-timer.c:327-328 | once all its cancels have returned a timer can be started again exactly when it is not queued and the list is not being destroyed |
| `TimerProgress.CancelsCanReturn` | src/margo-timer.c:303-359 | unless the list is being destroyed, every run can go on to a state in which all cancels have returned and all ULTs are gone |
| `TimerProgress.EverythingCanFinish` | src/margo-timer.c:69-359 | every run can go on, without new starts and calls, until nothing is under way or a drained list is destroyed |
| `TimerProgress.ListFreeCanFinish` | src/margo-timer.c:108-149 | a destruction of the list that has begun can always be completed |
| `TimerProgress.DestroyedAfterFree` | src/margo-timer.c:108-149 | the list is destroyed only after its destruction was asked for |
| `TimerProgress.DrainLeavesNothing` | src/margo-timer.c:108-149 | when the drain is over no timer is left in the queue |
| `TimerProgress.CanAlwaysBegin` | src/margo-timer.c:303-345 | a round of the dispatcher and a destruction can begin whenever the list mutex is free, and a cancel at any time |
| `TimerOverlap.OverlappingCancelsBreakSafety` | src/margo-timer.c:303-316 | a concrete run from the initial state in which overlapping cancels of timers 2 and 4 make timer 3's callback run after its cancel returned, with no start in between |
| `TimerOverlap.HalfClearedDeleteLosesTimer` | src/margo-timer.c:311-316 | a run from the initial state in which a second cancel between the two clearing stores of the first cuts off a timer that nobody canceled |
| `RequestSafety.NextKeepsInv` | src/margo-core.c:860-922 | every step of submitters, margo_cb, waiters and timers keeps the ownership of requests and of their timers |
| `RequestSafety.TimeoutOnlyOnLiveRequest` | src/margo-core.c:954-969 | whenever the timeout callback runs, its request is still being submitted, in flight or inside the cancel, has not been released, holds that timer, and is nobody else's |
| `RequestSafety.DeliversByKind` | src/margo-core.c:1167-1218 | margo_cb delivers by eventual or callback according to the kind of the submission, whatever the recycled slot was before |
| `RequestSafety.ReleasedExactlyOnce` | src/margo-core.c:1425-1498 | at every point of every run, each slot was handed out once per submission and taken back once per finished submission |
| `RequestSafety.FreeIffUnowned` | src/mochi-arena.c:88-95 | a slot is free if and only if no unfinished operation works on it |
| `RequestSafety.CarefulIffKept` | src/margo-core.c:914-917 | taking a slot into use, and overwriting a stack frame that is gone, keep the ownership invariant if and only if they do not put the callback kind into memory whose former margo_cb has not finished its last test |
| `RequestSafety.CarelessDrawIsFatal` | src/margo-core.c:914-917 | after a careless draw the late test frees the slot under its new owner |
| `RequestSafety.CarelessOverwriteIsFatal` | src/margo-core.c:1154-1165 | once the frame of a finished blocking call is overwritten with the callback kind, the late test releases a stack address into the arena |
| `RequestSafety.CarelessStepIsReachable` | src/margo-core.c:1866-1919 | a valid run leads to a state in which the next such draw, or the next such overwriting, is fatal |
| `RequestHistory.LifeCycle` | src/margo-core.c:860-922 | every step takes its own operation to the phase given by the kind it was submitted with and the timer it created, and leaves all others alone |
| `RequestHistory.LifeStory` | src/margo-core.c:1100-1181 | a request is in flight or beyond exactly after Mercury accepted it; it has failed exactly after its submission failed, and its submitter gives it back; a delivered one is released by the waiter or by margo_cb, by kind |
| `RequestHistory.AtMostOnce` | src/margo-core.c:860-922 | acceptance, failure, delivery, the last test, waiting and giving back happen at most once to a request |
| `RequestHistory.NeverBoth` | src/margo-core.c:1127-1130 | a failed submission is never delivered, tested or waited for, and an accepted one never given back as failed |
| `RequestHistory.GivesBack` | src/margo-core.c:1179-1181 | giving back frees exactly this slot, with the free list's link in an arena slot and the contents unchanged in a frame |
| `RequestProgress.EveryRequestCanFinish` | src/margo-core.c:860-922 | unless the timer list is being destroyed, every run can go on without new requests until every request is over and every slot has been given back |
| `RequestProgress.EveryAnswerPossible` | src/margo-core.c:1100-1130 | free slots can be drawn, requests can do without or create a timer, and any submission can be refused |
| `EfirstHeap.RootIsLeast` | src/margo-efirst-pool.c:134-138 | in a heap-ordered array the root's priority is least |
| `EfirstHeap.SiftUp` | src/margo-efirst-pool.c:88-98 | sift-up restores heap order and holds exactly the old entries and the new one |
| `EfirstHeap.Sink` | src/margo-efirst-pool.c:138-156 | the sift-down loop restores heap order and keeps exactly the entries |
| `EfirstHeap.SiftDown` | src/margo-efirst-pool.c:126-161 | removes an entry of least priority and keeps exactly the others, in heap order |
| `EfirstQueue.ApplyKeepsSound` | src/margo-efirst-pool.c:264-277 | every push and pop keeps: no unit is in two places, arrival numbers are unique, no unit was counted more than 32 times |
| `EfirstQueue.PopTakesOne` | src/margo-efirst-pool.c:177-186 | a pop answers NULL if and only if heap and FIFO are both empty, and otherwise removes exactly the unit it answers |
| `EfirstQueue.HeapUnitReturned` | src/margo-efirst-pool.c:116-124 | the heap unit with arrival number p is among the first 2*(32*(p-1)+1) pops of every run, whatever is pushed meanwhile |
| `EfirstQueue.FifoUnitReturned` | src/margo-efirst-pool.c:163-186 | a FIFO unit with k ahead of it is among the first 2*(k+1) pops of every run |
| `EfirstBound.RunKeepsGrown` | src/margo-efirst-pool.c:116-186 | every run keeps: a unit that has never left the heap keeps all later arrivals in it, and only units that used up their heap pushes are in the FIFO |
| `EfirstBound.HeapUnitReturnedExactly` | src/margo-efirst-pool.c:116-186 | in every run from a new pool, a unit of priority p in the heap is among the next 2*(max(31*(p-1), 32*(p-1)-16)+1) pops |
| `EfirstAttained.LongestWait` | src/margo-efirst-pool.c:116-186 | from every contended state some run keeps the unit waiting for all but the last of the pops it may have to wait |
| `EfirstAttained.BusyFifo` | src/margo-efirst-pool.c:116-124 | a run from a new pool leads to the contended state in which all units up to priority k+1 are in the heap for the second time |
| `EfirstAttained.FullHeapWait` | src/margo-efirst-pool.c:116-186 | a run from a new pool fills the heap with k+1 fresh units, and then 64*k-31 pops pass without returning the last |
| `EfirstAttained.HeapBoundAttained` | src/margo-efirst-pool.c:116-186 | for every p some run from a new pool has the unit of priority p in the heap and then answers one pop fewer than that bound without returning it: the bound is exact |
| `EfirstHistory.NthPush` | src/margo-efirst-pool.c:116-124 | in every run from a new pool the n-th push of a unit goes into the heap if n is at most 32 and to the end of the FIFO otherwise |
| `EfirstHistory.TurnServes` | src/margo-efirst-pool.c:177-186 | odd turns serve the heap unit that was pushed for the first time before all others in the heap, even turns the oldest FIFO unit, either the other half when its own is empty |
| `EfirstHistory.TurnsCounted` | src/margo-efirst-pool.c:280-301 | the turns are the timed pops and the pops that answer a unit |
| `EfirstHistory.OrderAfter` | src/margo-efirst-pool.c:264-278 | units count as earlier in the order of their first pushes |
| `EfirstPool.LeastIsEarliest` | src/margo-efirst-pool.c:270-273 | the heap unit of least priority is the earliest arrival among the heap units |
| `EfirstPool.ChainPush` | src/margo-efirst-pool.c:102-114 | the FIFO links after a push spell out the old sequence and the new unit |
| `EfirstPool.ChainPop` | src/margo-efirst-pool.c:163-175 | the FIFO links after a pop spell out the rest of the sequence |
| `EfirstPool.PushEntry` | src/margo-efirst-pool.c:73-100 | pushing into the array, with the capacity doubled when full, holds exactly the old set and the unit, in heap order |
| `EfirstPool.PopEntry` | src/margo-efirst-pool.c:126-161 | popping removes one unit of least priority and keeps exactly the others |
| `EfirstPool.Pool.constructor` | src/margo-efirst-pool.c:244-253 | a new pool with capacity 32 is empty |
| `EfirstPool.Pool.CreateUnit` | src/margo-efirst-pool.c:223-236 | a new unit is not in the pool and has no arrival number |
| `EfirstPool.Pool.Push` | src/margo-efirst-pool.c:264-277 | arrays, links, flags and counters after a push represent the abstract queue after the push |
| `EfirstPool.Pool.PopPrio` | src/margo-efirst-pool.c:126-161 | takes the earliest arrival out of the heap, or answers NULL when it is empty |
| `EfirstPool.Pool.PopFifo` | src/margo-efirst-pool.c:163-175 | takes the first unit of the FIFO, or answers NULL when it is empty |
| `EfirstPool.Pool.QueuePop` | src/margo-efirst-pool.c:177-186 | the pop by parity represents the abstract pop, with the same answer |
| `EfirstPool.Pool.Pop` | src/margo-efirst-pool.c:279-298 | the same with the lock-free emptiness test, which does not count the pop |
| `EfirstPool.Pool.GetSize` | src/margo-efirst-pool.c:255-262 | the number of units in heap and FIFO |
| `PrioQueue.PopKeepsSound` | src/margo-prio-pool.c:218-261 | a pop answers NULL if and only if both queues are empty, and otherwise removes exactly the unit it answers; every unit stays in at most one queue |
| `PrioQueue.LowUnitReturned` | src/margo-prio-pool.c:231-256 | a low-priority unit with k ahead of it is among the first 256*(k+1) pops of every run, however many high-priority pushes occur |
| `PrioQueue.HighUnitReturned` | src/margo-prio-pool.c:231-256 | a high-priority unit with k ahead of it is among the first k+2+k/255 pops of every run |
| `PrioQueue.LowUnitWaits` | src/margo-prio-pool.c:231-256 | while the high-priority queue lasts, every number of pops below the exact waiting time leaves the unit waiting |
| `PrioAttained.LowBoundAttained` | src/margo-prio-pool.c:231-256 | for every k a run from a new pool after which the unit with k ahead of it in the low queue is not among the next 256*(k+1)-1 answers |
| `PrioAttained.HighUnitWaits` | src/margo-prio-pool.c:231-256 | while the low queue lasts, fewer pops than the patience of a unit in the high queue do not reach it |
| `PrioAttained.HighBoundAttained` | src/margo-prio-pool.c:231-256 | for every k a run from a new pool after which the unit with k ahead of it in the high queue is not among the next k+1+k/255 answers |
| `PrioHistory.NthPush` | src/margo-prio-pool.c:195-215 | in every run from a new pool the n-th push of a unit goes to the low queue if n is 1 or more than 25, and to the high queue otherwise |
| `PrioHistory.TurnServes` | src/margo-prio-pool.c:231-256 | a pop serves the low queue if 256 divides the number of turns before it, the high queue otherwise, and the other one if that is empty |
| `PrioHistory.TurnsCounted` | src/margo-prio-pool.c:231-256 | the turns are the timed pops and the pops that answer a unit |
| `PrioPool.PushRefines` | src/margo-prio-pool.c:48-65 | the circle of links after a push spells out the old sequence and the new unit |
| `PrioPool.PopRefines` | src/margo-prio-pool.c:67-87 | the circle of links after a pop spells out the rest of the sequence |
| `PrioPool.PushStateRefines` | src/margo-prio-pool.c:179-216 | a push by the counter rule keeps both circles and all flags in step with the two sequences |
| `PrioPool.PopStateRefines` | src/margo-prio-pool.c:218-261 | a pop does the same, and answers the head of the queue it takes from |
| `PrioPool.Pool.Push` | src/margo-prio-pool.c:179-216 | the pool represents the abstract queue after the push, and num is the total length |
| `PrioPool.Pool.TimedPop` | src/margo-prio-pool.c:270-298 | the 1-in-256 mask test chooses the queue as the abstract pop does; num stays the total length |
| `PrioPool.Pool.Pop` | src/margo-prio-pool.c:218-261 | the same with the lock-free emptiness test, which does not advance the counter |
| `PrioPool.Pool.CreateUnit` | src/margo-prio-pool.c:126-148 | a new unit is outside both queues with counter 0 |
| `Memory.DecodeEncode` | src/mochi-arena.c:66-67 | reading back the bytes of a stored number gives the number |
| `Memory.LoadStore` | src/mochi-arena.c:91-92 | loading the pointer just stored at an address gives it back |
| `Memory.EncodeByte` | src/mochi-arena.c:64-65 | the i-th byte of a stored pointer is its i-th lowest one |
| `ArenaLayout.RoundUpIff` | src/mochi-arena.c:28-32 | rounding up with the mask gives the least multiple not below x if and only if the sum does not wrap, and 0 otherwise |
| `ArenaLayout.LeastMultipleIsLeast` | src/mochi-arena.c:28-32 | no smaller multiple reaches x |
| `ArenaLayout.ChainPush` | src/mochi-arena.c:88-95 | storing the old head in an object that no list node overlaps puts it in front of the list in memory |
| `ArenaLayout.NewSlotsApart` | src/mochi-arena.c:63-68 | the objects of a new block are distinct and pairwise disjoint |
| `ArenaLayout.Thread` | src/mochi-arena.c:63-68 | the loop threads all new objects in front of the free list and changes no byte outside the block's objects |
| `ArenaLayout.GrowLayout` | src/mochi-arena.c:51-70 | after growing, all objects are still aligned, inside blocks and disjoint, and live plus free is capacity times blocks |
| `Arena.TakeKeeps` | src/mochi-arena.c:81-83 | taking the head of the free list and zeroing it keeps the whole invariant and the bytes of every live object |
| `Arena.ReleaseKeeps` | src/mochi-arena.c:88-95 | releasing a live object keeps the whole invariant and the bytes of every other live object |
| `Arena.ReleaseKeepsIff` | src/mochi-arena.c:88-95 | releasing any address keeps the invariant if and only if it is a live object |
| `Arena.SecondReleaseLoops` | src/mochi-arena.c:88-95 | after an object that is free already was released again, no finite list is spelled out from the head |
| `Arena.ClientWriteKeeps` | src/mochi-arena.c:19-26 | arbitrary writes of clients to live objects, and to memory outside the arena, never disturb the free list or the block list |
| `Arena.LiveObjectsSafe` | src/mochi-arena.c:51-70 | a live object is aligned, inside a block, and disjoint from every other live object, every free object and every block header |
| `Arena.GrowWith` | src/mochi-arena.c:51-70 | growing keeps the invariant, adds exactly the new objects and the block, and keeps the bytes of every live object |
| `Arena.RequestCoversIff` | src/mochi-arena.c:53-54 | the block size computed in a size_t covers the block if and only if it does not wrap around |
| `Arena.SizesWrap` | src/mochi-arena.c:29-32 | an object size that rounds up to 0, and a block of more than 2^64 bytes for which 8 are requested |
| `Arena.FreeBlocks` | src/mochi-arena.c:97-107 | the walk hands every block to free() exactly once although a freed block is overwritten with arbitrary bytes |
| `Arena.Arena.constructor` | src/mochi-arena.c:34-47 | the object size is the least multiple of 8 that holds the object and a pointer, or 0 when rounding wraps around; the capacity is at least 1 |
| `Arena.Arena.Get` | src/mochi-arena.c:72-86 | NULL exactly when the list is empty and malloc fails, with nothing changed; otherwise an object that was not live, all zero, with every live object's bytes kept |
| `Arena.Arena.Release` | src/mochi-arena.c:88-95 | the address goes to the front of the free list, and the arena is in order if and only if it was a live object; NULL changes nothing; the other live objects keep their bytes |
| `Arena.Arena.Scribble` | src/mochi-arena.c:72-86 | client writes keep the arena valid |
| `Arena.Arena.Destroy` | src/mochi-arena.c:97-107 | every block is freed once, and capacity times blocks is live plus free |
| `Names.ParseDecimal` | src/margo-abt-config.c:210 | printing a number in decimal and reading it back gives the number |
| `Names.Pigeonhole` | src/margo-abt-config.c:204-220 | n candidate names in use need at least n registered names |
| `Names.UnusedName` | src/margo-abt-config.c:204-220 | the search stops after at most len+1 candidates with the first unused one |
| `Names.DefaultNames` | src/margo-abt-config.c:204-220 | the first default name, and one that skips a name in use |
| `RegistrySafety.AddPoolKeeps` | src/margo-abt-config.c:1307-1345 | adding a pool with a new handle keeps registry integrity: distinct handles, exact use counts, no dangling reference |
| `RegistrySafety.AddExternalPoolKeeps` | src/margo-abt-config.c:1388-1430 | so does adding an external pool |
| `RegistrySafety.HandlesDistinctIff` | src/margo-abt-config.c:1278-1285 | pool handles stay all distinct if and only if the NULL handle is not registered again |
| `RegistrySafety.NullTwice` | src/margo-abt-config.c:1278-1285 | the NULL handle is registered a second time |
| `RegistrySafety.AddXstreamKeepsIff` | src/margo-abt-config.c:603-676 | adding an xstream keeps integrity if and only if it is not the case that the xstream could not be created, or the primary one kept its scheduler, and the scheduler concerned starts with a registered pool; uses counted up to an unregistered pool are taken off again |
| `RegistrySafety.UncreatedPinsPools` | src/margo-abt-config.c:603-606 | once an xstream that could not be created has been added and removed, none of its scheduler's pools can be removed |
| `RegistrySafety.AddExternalXstreamKeepsIff` | src/margo-abt-config.c:678-743 | adding an external xstream keeps integrity if and only if it is not the case that the first pool of its scheduler is registered and a later one is not |
| `RegistrySafety.AdjustUndoes` | src/margo-abt-config.c:798-843 | taking off the uses of a scheduler gives back the count from before they were put on; only the mark of the primary xstream stays |
| `RegistrySafety.RemoveXstreamKeeps` | src/margo-abt-config.c:1519-1539 | removing an xstream by swap takes exactly its uses off and keeps integrity |
| `RegistrySafety.RemoveUndoesAddIff` | src/margo-abt-config.c:1519-1539 | removing an xstream that was just added gives back the registered pools and xstreams from before if and only if the xstream was created or its scheduler has no pools |
| `RegistrySafety.RemovablePoolUnused` | src/margo-abt-config.c:1491-1497 | a pool whose count is zero is in no registered xstream's scheduler |
| `RegistrySafety.RemovePoolKeeps` | src/margo-abt-config.c:1476-1517 | after swap-removal of a pool no registered xstream refers to a pool that is not there |
| `RegistryRuns.StepKeepsIff` | src/margo-abt-config.c:1307-1539 | one operation keeps integrity if and only if it is not an add that miscounts (internal or external) |
| `RegistryRuns.RunKeepsIntegrity` | src/margo-abt-config.c:1307-1539 | integrity holds after every run in which no add miscounts |
| `RegistryRuns.RunKeepsNames` | src/margo-abt-config.c:1307-1474 | pool names and xstream names stay distinct over every run |
| `RegistryRuns.FailedAddLosesPool` | src/margo-abt-config.c:610-625 | a run after which a registered xstream refers to a removed pool, through a failed external add with successful Argobots calls or through a primary xstream that keeps its scheduler |
| `RegistryRuns.UncreatedXstreamPinsPool` | src/margo-abt-config.c:603-606 | a run after which no xstream is registered and the only pool cannot be removed |
| `RegistryRefs.RemovePoolCode` | src/margo-abt-config.c:1476-1517 | a pool is removed exactly when it exists, is not referenced, is in no registered scheduler and is empty; exactly that entry goes; every other outcome has its code and changes nothing |
| `RegistryRefs.RemoveXstreamCode` | src/margo-abt-config.c:1519-1539 | an xstream is removed exactly when it exists, is not the primary one and is not referenced |
| `RegistryRefs.HeldPoolStays` | src/margo-config.c:190-350 | over every run, as long as fewer references were given back than there were and were taken, the pool stays registered with its name and handle and the count is exact |
| `RegistryRefs.NeededXstreamStays` | src/margo-config.c:637-800 | the same for an xstream; the primary xstream always stays |
| `RegistryRefs.PoolReferenceCodes` | src/margo-config.c:190-350 | taking and giving back find the first entry that the key fits, or answer with the right code; a reference that was not taken cannot be given back |
| `RegistryRefs.XstreamReferenceCodes` | src/margo-config.c:637-800 | the same for xstreams |
| `RegistryRefs.ReleaseUndoesRef` | src/margo-config.c:221-350 | giving back undoes taking, unless the 32-bit count wraps around |
| `RegistryRefs.ReleaseUndoesRefXstream` | src/margo-config.c:670-800 | the same for xstreams |
| `RegistryRefs.AddedPoolIsFound` | src/margo-abt-config.c:1307-1345 | a pool is added exactly when its name is free and it was created, and is then found under its name and its handle, unreferenced and unused |
| `RegistryRefs.AddedXstreamIsFound` | src/margo-abt-config.c:1347-1386 | an xstream that was set up is added exactly when its name is free and its pools are registered, and is then found |
| `RegistryRefs.AddXstreamAnswers` | src/margo-abt-config.c:561-676 | exactly when an xstream is registered, for every answer of Argobots |
| `RegistryRefs.AddedExternalIsFound` | src/margo-abt-config.c:1432-1474 | exactly when an external xstream is registered |
| `RegistryRefs.RunKeepsMarks` | src/margo-abt-config.c:655-659 | over every run in which no add miscounts, every pool of the primary xstream is marked as its own |
| `RegistryRefs.MarksComeFromPrimary` | src/margo-abt-config.c:655-659 | no pool is marked in a run that never sets up the primary xstream |
| `RegistryRefs.CountsWrapAround` | src/margo-abt-config.h:58-60 | the counts are unsigned 32-bit numbers |
| `RegistryTable.FindPoolByHandle` | src/margo-abt-config.c:1278-1285 | the first entry with the handle; -1 exactly when it is not registered or NULL |
| `RegistryTable.FindXstreamByHandle` | src/margo-abt-config.c:1297-1305 | an entry with the handle; -1 exactly when it is not registered or NULL |
| `RegistryTable.AdjustUses` | src/margo-abt-config.c:638-660 | the loop adjusts each registered pool by its number of slots in the leading registered part of the scheduler's list, and reports whether all were registered |
| `RegistryTable.CheckRegistered` | src/margo-abt-config.c:403-412 | whether every pool of an external scheduler is registered |
| `RegistryTable.Resolve` | src/margo-abt-config.c:341-367 | references by index or by name resolve to the handles of the pools they name, exactly when all are in bounds |
| `RegistryTable.Table.AddPool` | src/margo-abt-config.c:1307-1345 | the table after an add, with growth by half plus one, represents the abstract add; a failed add changes no entry |
| `RegistryTable.Table.AddExternalPool` | src/margo-abt-config.c:1388-1430 | the same after the check that the handle is new |
| `RegistryTable.Table.AddXstream` | src/margo-abt-config.c:1347-1386 | the table represents the abstract add and stays valid if and only if the add does not miscount; an unresolvable reference or a used name changes no entry |
| `RegistryTable.Table.InitXstream` | src/margo-abt-config.c:595-676 | initialisation represents the abstract one for every answer of Argobots: no scheduler, no handle, a primary xstream that keeps its scheduler, or an xstream that runs it |
| `RegistryTable.Table.InitReady` | src/margo-abt-config.c:628-676 | an xstream with its scheduler is counted and registered, or counted back when a pool is not registered |
| `RegistryTable.Table.Uncount` | src/margo-abt-config.c:798-843 | one use is taken off each registered pool in front of the first unregistered one; nothing without a handle |
| `RegistryTable.Table.AddExternalXstream` | src/margo-abt-config.c:1432-1474 | the table represents the abstract external add and stays valid if and only if the add does not miscount; a NULL name reaches strcmp exactly when the xstream can be added and all its pools are registered |
| `RegistryTable.Table.InitExternal` | src/margo-abt-config.c:678-743 | initialisation registers with all uses counted, or fails and takes uses off the leading registered pools, or compares a NULL name |
| `RegistryTable.Table.RemovePool` | src/margo-abt-config.c:1476-1517 | the table represents the abstract removal with the same return code, also after a miscount, and a valid table stays valid |
| `RegistryTable.Table.RemoveXstream` | src/margo-abt-config.c:1519-1539 | the same for an xstream |
| `RegistryTable.Find` | src/margo-config.c:190-235 | the loops find the first entry with the handle or the name |
| `RegistryTable.Table.RefPool` | src/margo-config.c:190-235 | the table represents the abstract reference with the same code |
| `RegistryTable.Table.ReleasePool` | src/margo-config.c:291-350 | the same for giving back; the mutex is unlocked twice exactly when there is nothing to give back and the pool is named by handle or name |
| `RegistryTable.Table.RefXstream` | src/margo-config.c:637-684 | the same for xstreams |
| `RegistryTable.Table.ReleaseXstream` | src/margo-config.c:740-801 | the same for xstreams |
| `BulkPool.NoDuplicates` | src/margo-bulk-pool.c:141-144 | the slots from count-num_free on hold no handle twice and none that is checked out |
| `BulkPool.GetKeeps` | src/margo-bulk-pool.c:141-144 | taking a handle keeps: free slots plus checked-out handles are exactly the pool's handles |
| `BulkPool.ReleaseKeeps` | src/margo-bulk-pool.c:181-184 | so does giving one back, at the slot the code writes |
| `BulkPool.ReleaseKeepsIff` | src/margo-bulk-pool.c:181-184 | giving a handle back keeps the pool in order if and only if the handle is checked out |
| `BulkPool.SecondReleaseDuplicates` | src/margo-bulk-pool.c:181-184 | a handle of the pool that is released again is on the stack twice |
| `BulkPool.AllReleased` | src/margo-bulk-pool.c:181-184 | when nothing is checked out the array is a permutation of the original |
| `BulkPool.Pool.constructor` | src/margo-bulk-pool.c:37-99 | a new pool has every handle free, each inside the buffer |
| `BulkPool.Pool.Get` | src/margo-bulk-pool.c:141-144 | once a handle is free, hands out a handle of the pool that nobody holds |
| `BulkPool.Pool.TryGet` | src/margo-bulk-pool.c:146-179 | null, or for the waiting get one more wait, exactly when every handle is checked out; otherwise as Get |
| `BulkPool.Pool.Release` | src/margo-bulk-pool.c:186-209 | refuses a handle of another size or from elsewhere without any change and accepts any other, every checked-out one among them; the pool is in order afterwards if and only if the handle was checked out; the write falls outside the array exactly when nothing was; the array is a permutation of the original when it was the last one |
| `BulkPoolset.SizesAscend` | src/margo-bulk-pool.c:241-246 | without overflow the class sizes are strictly ascending |
| `BulkPoolset.SizeIsPower` | src/margo-bulk-pool.c:241-246 | the size of class i is the first size times the i-th power of the multiple, modulo 2^64 |
| `BulkPoolset.Select` | src/margo-bulk-pool.c:288-305 | the first class that fits; -1 exactly when every class is too small |
| `BulkPoolset.SmallestFit` | src/margo-bulk-pool.c:288-305 | without overflow the chosen class is the smallest that fits |
| `BulkPoolset.FailsAboveMaximum` | src/margo-bulk-pool.c:281-305 | without overflow a request fails if and only if it exceeds the reported maximum |
| `BulkPoolset.FailsAboveMaxIff` | src/margo-bulk-pool.c:281-305 | with wrap-around taken into account, requests fail exactly above the reported maximum if and only if no class is larger than the last |
| `BulkPoolset.WrappedSizes` | src/margo-bulk-pool.c:241-246 | two classes of which the second wraps around to a smaller size |
| `BulkPoolset.Route` | src/margo-bulk-pool.c:334-351 | a handle goes to a pool of its size, its own pool without overflow, and to none exactly when no class has its size |
| `BulkPoolset.TrySelect` | src/margo-bulk-pool.c:307-332 | with the any flag the first fitting class with a free handle, otherwise the first fitting class if it has one |
| `HandleCache.PrependRefines` | src/margo-handle-cache.c:70-71 | LL_PREPEND represents the list with the element in front |
| `HandleCache.PopRefines` | src/margo-handle-cache.c:103-106 | LL_DELETE of the head represents the rest of the list |
| `HandleCache.Cache.constructor` | src/margo-handle-cache.c:15-75 | every element is on the free list once, with data that is zero except for its back-pointer; when creation fails the elements made so far are destroyed |
| `HandleCache.Cache.Pop` | src/margo-handle-cache.c:101-111 | takes the first element off the list, and it belongs to this caller only |
| `HandleCache.Cache.FinishReset` | src/margo-handle-cache.c:113-129 | a reset handle is held by one caller; after a failed reset it is on the free list again |
| `HandleCache.Cache.Put` | src/margo-handle-cache.c:131-155 | takes back exactly cached handles, clean, in front of the list |
| `HandleCache.Cache.HgDestroy` | src/margo-core.c:2487-2505 | with the last reference the data goes to the arena if the instance is set: heap data strays there exactly when a held cached handle is destroyed this way |
| `HandleCache.Cache.MargoDestroy` | src/margo-core.c:817-858 | a handle is recycled if and only if the count read was 1, the handle is cached and its instance is set; with a count of 1 and no instance nothing changes and the call fails; heap data enters the arena if and only if the count read was not 1 although one reference was left on a used cached handle; an uncached handle with a count of 1 is destroyed with its reference dropped |
| `HandleCache.Cache.FailedCreate` | src/margo-core.c:785-812 | a cached handle whose data could not be set up stays held after the caller's destroy and is lost from the cache |
| `HandleCache.Cache.RacingDestroys` | src/margo-core.c:821-826 | two holders that both read 2 destroy the cached handle for good and put heap data into the arena |
| `HandleCache.Cache.Destroy` | src/margo-handle-cache.c:77-94 | destroys exactly the handles on the free list, each once, and puts nothing into the arena |
| `HandleCache.Cache.LatePut` | src/margo-handle-cache.c:131-155 | a handle given up after the cache was destroyed is on the free list and not destroyed |
| `Statistics.Welford` | src/margo-default-monitoring.c:166-169 | the incremental update of var gives the sum of squared deviations from the new mean |
| `Statistics.Moments` | src/margo-default-monitoring.c:165-169 | sum, avg and var after a sample are those of all samples |
| `Statistics.Stats.Update` | src/margo-default-monitoring.c:157-171 | num, sum, avg, var and min say of the samples since reset what their names say; max is the greatest of them and 0 |
| `Statistics.Stats.Reset` | src/margo-default-monitoring.c:1702-1709 | starts again from no samples |
| `Statistics.MaxIsGreatestIff` | src/margo-default-monitoring.c:164 | max is the greatest sample if and only if some sample is not negative |
| `Statistics.MaxOfNegative` | src/margo-default-monitoring.c:164 | after one negative sample max is not the greatest sample |
| `RpcIds.MuxDemux` | src/margo-id.h:11-35 | splitting an id and putting it together is the identity on all 64-bit ids |
| `RpcIds.DemuxMux` | src/margo-id.h:11-35 | splitting a combined id gives the provider and the base with its low bits set |
| `RpcIds.MuxGenId` | src/margo-id.h:26-59 | exchanging the provider of a generated id gives the id generated for that provider, in both layouts and for every hash |
| `RpcIds.GenIdParts` | src/margo-id.h:37-59 | a generated id gives back its provider and its hash; in the old layout only the low 16 bits of the hash are left |

## Left out

- TimerSafety.CancelSafety: runs with a harmful delete through stale links are excluded, because the property is false there; so are runs in which a start of a timer overlaps another start or a cancel of it, which the code does not order.
- RequestSafety.ReleasedExactlyOnce: runs with a careless draw or overwriting are excluded, because the property is false there; CarefulIffKept is the exact boundary.
- Shutdown.ShutdownSafety: assumes fewer than 2^31-1 threads, so that the count cannot run into the flag.
- TimerSafety.StaleUnlinkKeepsIff: the two clearing stores of another cancel come before or after a list section, never inside it. They could fall inside only while the section deletes the same timer, or its neighbour, through stale links; without such deletes the sections are atomic.
- RegistryTable.Table.AddExternalXstream: what strcmp does with NULL is undefined, and so is what follows.
- RegistrySafety.AddXstreamKeepsIff: assumes fewer than 2^32 scheduler slots in all, that the pools of an existing scheduler can be read, and that the primary xstream is not registered yet when it is configured, which the validation of configurations ensures.
- EfirstPool.PushEntry: realloc delivers the larger array; the code uses its result without a test.
- EfirstPool.Pool.Push: the 64-bit counters pops and num do not wrap, and units are not freed and reused under the same number.
- PrioPool.Pool.TimedPop: the signed counter cnt does not overflow.
- Arena.Arena.Get: malloc delivers a block of the full size, so runs in which the block size wraps around are excluded; RequestCoversIff is the exact boundary. The arena itself is never NULL.
- BulkPool.Pool.Release: what the write in front of the array destroys is not modelled.
- HandleCache.Cache.LatePut: does not model that the mutex it locks has been freed.
- Arena.Arena.Release: the address can be written to; after the release of an address that is not a live object the arena's methods promise nothing.
- BulkPoolset.Select: chooses the pool; taking the handle from it is BulkPool.Pool.TryGet.
- Statistics.Stats.Update: real numbers instead of doubles.
- Timer object lifetime: signals after unlock, destruction without the list lock, and inline timers destroyed while queued.
- Removal of a unit from the middle of the priority pool, which is written for lists that end in NULL while the queues are circular.
- Validity of the progress and RPC pool indices across pool removal, and the references that RPC registration takes.
- Tiling of parallel bulk transfers, monitoring time series, and the counters that ask for progress.
- JSON parsing and validation, logging, profiling, examples, and the insides of Mercury, Argobots, json-c, pthread and uthash.
