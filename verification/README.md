# Verified models from micropython-lib

A Dafny model of the parts of the MicroPython library collection that carry real state or
arithmetic, with proofs of what they are for:

- **the asyncio kernel** (futures, tasks, the ready queue, cancellation) as a transition system
  in which a cancel may fall between any two micro-steps, and the primitives built on it: `Lock`,
  `Semaphore`, `Queue`, `gather`, and the timers of the event loop;
- **stream buffering**: `StreamReader.readuntil` and `readexactly`, and the write side of the
  selector socket transport with its flow control;
- **`copy.deepcopy`** of cyclic object graphs;
- **`heapq`**, with `merge`, `nsmallest` and `nlargest`;
- **codecs and arithmetic**: HTTP chunked transfer coding (section 4.1 of RFC 7230), base64 and
  base32 (sections 4 and 6 of RFC 4648), SLIP framing (RFC 1055), and the calendar of `datetime`.

Check the whole project with `dafny verify dfyconfig.toml`.

## How the model is laid out

| file | content |
|---|---|
| `Common.dfy` | `Option`, `Byte` and facts the modules share |
| `Kernel.dfy`, `KernelCounts.dfy`, `KernelInvariant.dfy`, `KernelCancel.dfy`, `KernelValues.dfy`, `EventLoop.dfy` | the kernel's steps, callback counting, the task invariant, cancellation, the results and exceptions that tasks pass on, the operations in place |
| `Lock.dfy`, `Waiters.dfy`, `Semaphore.dfy`, `Queue.dfy`, `Gather.dfy`, `Timers.dfy` | asyncio primitives and timers |
| `SuspendedCalls.dfy`, `WaitersKernel.dfy`, `LockKernel.dfy`, `SemaphoreKernel.dfy`, `QueueKernel.dfy` | lock, semaphore and queue on the kernel simulate their models |
| `Streams.dfy`, `StreamWaiter.dfy`, `Transport.dfy` | stream reader, its waiter with several reads, socket transport |
| `Deepcopy.dfy` | deep copy with a memo |
| `Heapq.dfy`, `HeapqSelect.dfy`, `HeapqMerge.dfy` | heaps, selection, merging |
| `Chunked.dfy`, `ChunkedTruncation.dfy`, `Base64.dfy`, `Base32.dfy`, `Slip.dfy`, `Datetime.dfy` | codecs and calendar |

Code that updates objects in place is a class with the source's fields. Its methods are proved
against functions on a value of the same content, and the theorems about whole runs are stated on
those functions, so they hold of the methods. History that a law needs (what was granted, put,
moved, sent) is kept in ghost fields of the class and in ordinary fields of the value. That this
record is true is proved from the calls themselves: `QueueModel.FifoByCalls`,
`SemaphoreModel.ValueByCalls`, `LockModel.EveryCallAccounted`, `Gather.ChildrenByEvents` and
`Timers.RanWasDue` read arguments and order off the events of a run.

Choices that matter when reading the contracts:

- Futures, tasks, timers and copied objects are named by an index, which stands for identity.
- A coroutine is cut at its `await`s; each piece is one atomic step. What coroutines, protocols
  and sockets do is a parameter: any event, any call tree, any number of bytes sent.
- `WokenCancelled` in `Lock` and `Waiters` is a call whose future already has a result and whose
  task was then cancelled. That the kernel produces these states, and resumes such a task with
  CancelledError, is proved for lock, semaphore and queue in `LockKernel`, `SemaphoreKernel` and
  `QueueKernel`.
- Shifts and masks are written as multiplication, division and remainder by powers of two.
  Integers are unbounded, as in Python. Times are `real`.
- Exceptions are values: `Option`, `Result`, or a boolean that says whether the call succeeded.
- Elements of a heap are compared by any strict weak order, or, in `merge`, by a comparison that
  refines one; the `_max` routines are the same routines under the reversed comparison.
  `list.sort` is a stable insertion sort. `==` on elements is equality of values.
- Constants are the source's: line limit 1000, compaction above 100 timers and one half
  cancelled, 64 KiB high-water mark, 57 bytes per base64 line.

Where the code departs from what its documentation or comments say, the code is modelled and the
departure is a theorem:

- The comment at `python-stdlib/asyncio/tasks.py:86-93` says a task with a waiter has a callback
  on it. Between completion and wakeup the waiter is still set but the wakeup is already in the
  ready queue; `KernelInvariant.ResumptionAtWaiter` is the sharpened form.
- `__wakeup` catches only `Exception`. Awaiting a future that holds anything else loses the task
  for good, and that is exactly when the invariant breaks (`KernelInvariant.BeginKeepsInvariantIff`,
  `BaseExcStrandsTask`, `BaseExcExample`).
- A task that cancels itself does not always end cancelled: `KernelCancel.SelfCancelOutcome` says
  exactly when, and `KernelCancel.HandsOverExample` is a run in which it does not.
- Timers leave in order of `_when` within a pass, but across passes only if none is scheduled for
  a time before one that has left (`Timers.MovedInOrderIff`, `Timers.BackdatedExample`).
- The unkeyed `nsmallest` (`python-stdlib/heapq/heapq.py:233-251`, kept as `_nsmallest` when the
  keyed function of the same name replaces it further down) is documented as
  `sorted(iterable)[:n]`. That holds when tied elements of the input are equal; two tied elements
  that differ come out reversed (`HeapqSelect.TiesReversed`).
- `heappushpop` is called a fast push followed by pop. It is, except on a root and an item that are
  tied and different (`HeapqSelect.PushpopAgreesIff`).
- `merge` compares lists that begin with the value, so tied elements that differ are not kept in
  the order of the inputs (`HeapqMerge.MergePairIff`).
- A pending `gather` may refuse a cancel (`Gather.AllDoneRefuses`); `Gather.TakesIff` says exactly
  when.
- A negative chunk size separates the two chunked readers, except where the connection ends just as
  the shortened buffer is full (`Chunked.ReadersAgreeIff`, `Chunked.ReadersDiffer`).
- A resuming read clears `_waiter` even if it holds the future of a later read, which is then never
  woken (`StreamWaiter.NoneLostIff`, `StreamWaiter.LostExample`).
- A chunked body whose final CRLFs are missing is accepted as complete
  (`ChunkedTruncation.TruncationDetected` gives the exact point).
- SLIP packets containing DB DC do not survive the round trip, and only those
  (`Slip.RoundTripIff`, `Slip.RoundTripFails`).

## Model

| member | source | states |
|---|---|---|
| `KernelInvariant.ExactlyOneResumption` | python-stdlib/asyncio/tasks.py:86-93 | In every state of every run a finished task has no pending resumption; an unfinished suspended one has exactly one, and `_fut_waiter` says where: a scheduled `__step`, a callback of the pending waiter, or a ready wakeup of the done waiter |
| `KernelInvariant.NeverResumesDone` | python-stdlib/asyncio/tasks.py:232-241 | Whatever the loop resumes is an unfinished task and is then running, so the "already done" error is unreachable |
| `KernelInvariant.NextInv` | python-stdlib/asyncio/tasks.py:232-327 | Every event, cancels and foreign completions included, keeps the waiter bookkeeping and the one-resumption law |
| `KernelInvariant.RunInv` | python-stdlib/asyncio/tasks.py:232-327 | The kernel invariant holds at every point of a run from any state that satisfies it |
| `KernelInvariant.BeginKeepsInvariantIff` | python-stdlib/asyncio/tasks.py:313-318 | Popping a handle keeps the invariant if and only if it is not a wakeup for a future holding an exception outside `Exception` |
| `KernelInvariant.BaseExcStrandsTask` | python-stdlib/asyncio/tasks.py:313-318 | In the excluded case the awaiting task is left unfinished with no pending resumption |
| `KernelInvariant.StuckStays` | python-stdlib/asyncio/tasks.py:199-327 | No event brings such a task back, not even cancelling it |
| `KernelInvariant.BaseExcExample` | python-stdlib/asyncio/tasks.py:313-318 | A run from the empty kernel to a state in which the excluded wakeup is next |
| `KernelCounts.CompleteConserves` | python-stdlib/asyncio/futures.py:140-152 | Completing a future moves its callbacks to the ready queue; none is lost or doubled |
| `KernelCounts.NextCounts` | python-stdlib/asyncio/futures.py:126-258 | Each event changes the number of outstanding calls of a callback by exactly what it registers, fires or removes |
| `KernelCounts.CallbacksFireOnce` | python-stdlib/asyncio/futures.py:140-226 | Over a whole run each registration of a callback has been fired, removed or is still outstanding, never two of these |
| `KernelCancel.CancelDooms` | python-stdlib/asyncio/tasks.py:199-230 | Cancelling an unfinished task that waits on a plain future returns True, marks it, and puts its resumption in the ready queue unless it is running |
| `KernelCancel.DoomedStays` | python-stdlib/asyncio/tasks.py:199-311 | The request survives every event but the task's own resumption or the end of its own step |
| `KernelCancel.DoomedIsThrown` | python-stdlib/asyncio/tasks.py:232-239 | Resuming a marked task throws CancelledError into its coroutine, whatever the awaited future holds |
| `KernelCancel.CancelIsDelivered` | python-stdlib/asyncio/tasks.py:199-239 | A cancel of a suspended task that waits on no unfinished task returns True; its resumption stands at some place of the FIFO queue, and in every continuation the pop that reaches it throws CancelledError, also when the awaited future had already completed |
| `KernelCancel.SelfCancelOutcome` | python-stdlib/asyncio/tasks.py:252-288 | A task cancelled during its own step ends as cancelled or with CancelledError, or suspends still marked, if and only if its coroutine does not raise something else and does not await an unfinished task whose await chain is free of loops |
| `KernelCancel.ReadyIsFifo` | python-stdlib/asyncio/base_events.py:1642-1646 | The loop pops from the front and every other event only appends |
| `KernelCancel.CancelReachesChainEnd` | python-stdlib/asyncio/tasks.py:222-230 | Through a chain of unfinished tasks, each awaiting the next, a cancel that returns True has exactly the effect of cancelling the last task of that chain, which is then marked |
| `KernelCancel.ChainCancelIsDelivered` | python-stdlib/asyncio/tasks.py:199-239 | Whatever the task awaits, a cancel that returns True is delivered to the last task of its await chain at its next resumption, or becomes the request of that task if it is the one running |
| `KernelCancel.SelfCancelIsDelivered` | python-stdlib/asyncio/tasks.py:199-288 | Over the whole run: a task that cancels itself ends as cancelled or with CancelledError, or its next resumption throws CancelledError, unless its coroutine raises something else or goes on to await an unfinished task |
| `KernelCancel.HandsOverExample` | python-stdlib/asyncio/tasks.py:282-288 | A run from the empty kernel in which a task cancels itself, then awaits another task, which takes the request, and is itself left waiting uncancelled |
| `KernelCancel.AcyclicCancelReturns` | python-stdlib/asyncio/tasks.py:222-230 | If await chains do not loop, the recursion of `cancel` ends at an unfinished future |
| `KernelValues.ReturnEndsTask` | python-stdlib/asyncio/tasks.py:252-258 | In every run a running task whose coroutine returns v ends holding v, or CancelledError if it was cancelled in that step |
| `KernelValues.RaiseEndsTask` | python-stdlib/asyncio/tasks.py:259-265 | A task whose coroutine raises x ends holding x, and as cancelled exactly if x is CancelledError |
| `KernelValues.SetLeavesValue` | python-stdlib/asyncio/futures.py:230-258 | `set_result` and `set_exception` leave exactly that result or exception in a pending plain future and schedule its callbacks in the order they were added |
| `KernelValues.AddedLast` | python-stdlib/asyncio/futures.py:199-211 | A callback is appended to a pending future's list, and to the ready queue if the future is done |
| `KernelValues.DoneForever` | python-stdlib/asyncio/futures.py:126-258 | What a future holds once it is done it holds at every later point of the run |
| `KernelValues.PoppedDelivers` | python-stdlib/asyncio/tasks.py:232-327 | Popping a resumption enters its unfinished task, clears flag and waiter, and throws: CancelledError if the task was marked, what `__step` was scheduled with, or else the exception the awaited future holds, and nothing if that holds a result |
| `KernelValues.AwaitRecords` | python-stdlib/asyncio/tasks.py:275-288 | Awaiting another future records it as the waiter, with the wakeup registered there or already queued |
| `KernelValues.AwaitedIsDelivered` | python-stdlib/asyncio/tasks.py:282-318 | If a future is done while a task waits for it, the task's next resumption throws the exception it holds, or none if it holds a result, whatever happens in between, unless the task was cancelled |
| `KernelValues.RaisedReachesAwaiter` | python-stdlib/asyncio/tasks.py:252-318 | End to end: when a task raises x, the next resumption of a task that awaits it throws x |
| `KernelValues.ReturnedReachesAwaiter` | python-stdlib/asyncio/tasks.py:252-318 | End to end: when a task returns v, a task that awaits it goes on without an exception and finds v |
| `KernelValues.YieldComesBack` | python-stdlib/asyncio/tasks.py:276-308 | A bare yield comes back without an exception; awaiting itself, or yielding what cannot be awaited, comes back as RuntimeError |
| `KernelValues.CreatedTaskStarts` | python-stdlib/asyncio/tasks.py:127-143 | The first resumption of a new task throws nothing into its coroutine |
| `EventLoop.Loop.ScheduleCallbacks` | python-stdlib/asyncio/futures.py:140-152 | The list is emptied and its callbacks appended to the ready queue in order |
| `EventLoop.Loop.Finish` | python-stdlib/asyncio/futures.py:126-138 | Only a pending future changes state; the callbacks are then scheduled, else nothing changes |
| `EventLoop.Loop.SetResult` | python-stdlib/asyncio/futures.py:230-240 | Succeeds exactly on a pending plain future, which then holds that result |
| `EventLoop.Loop.SetException` | python-stdlib/asyncio/futures.py:242-258 | Succeeds exactly on a pending plain future, which then holds that exception |
| `EventLoop.Loop.AddDoneCallback` | python-stdlib/asyncio/futures.py:199-211 | A done future's callback goes straight to the ready queue, another's to its list |
| `EventLoop.Loop.RemoveDoneCallback` | python-stdlib/asyncio/futures.py:215-226 | Removes all instances and no others, and returns how many there were |
| `EventLoop.Loop.Cancel` | python-stdlib/asyncio/tasks.py:199-230 | The recursion along `_fut_waiter` lands on the unfinished end of the chain: a plain future is cancelled, a task marked; a looping chain is endless recursion |
| `EventLoop.Loop.CreateTask` | python-stdlib/asyncio/tasks.py:127-143 | A new pending task with its first `__step` scheduled |
| `EventLoop.Loop.StepIn` | python-stdlib/asyncio/tasks.py:232-251 | Refuses a finished task; otherwise a pending cancel becomes the thrown CancelledError and flag and waiter are cleared |
| `EventLoop.Loop.Wakeup` | python-stdlib/asyncio/tasks.py:313-327 | Resumes an unmarked task with the exception the awaited future holds, CancelledError if it was cancelled, and none if it holds a result; a marked one with CancelledError; not at all on an exception outside `Exception` |
| `EventLoop.Loop.RunHandle` | python-stdlib/asyncio/base_events.py:1643-1659 | Runs the head of the ready queue and keeps the invariant, unless it is the excluded wakeup, which it reports |
| `EventLoop.Loop.StepOut` | python-stdlib/asyncio/tasks.py:252-308 | Every way a coroutine gives control back keeps the invariant; a returned value or raised exception is what the task then holds, unless it was cancelled in that step |
| `LockModel.RunInv` | python-stdlib/asyncio/locks.py:177-234 | In every interleaving: grants less releases is one exactly while locked, only the head waiter is ever woken and only while the lock is free, a free lock with a pending waiter has a head whose resumption is due, grants follow arrival order and overtake no waiter that is not cancelled |
| `LockModel.GrantsOnlyWhenFree` | python-stdlib/asyncio/locks.py:203-204 | `acquire` sets `_locked` after its wait without testing it; in every run it was free at that moment |
| `LockModel.HandOff` | python-stdlib/asyncio/locks.py:193-204 | From every reachable state with the lock free, the due resumptions alone, run in any order, give it to the first waiter in arrival order that has not been cancelled: once held, that waiter has it; while free, it is still the heir; with none left to run, it is free only if there was no heir |
| `LockModel.ResumeHeir` | python-stdlib/asyncio/locks.py:193-204 | One resumption either grants the lock to the heir, or leaves it free with the same heir, or changes nothing for a held lock |
| `LockModel.EveryCallAccounted` | python-stdlib/asyncio/locks.py:177-204 | Over every run the arrival numbers of the `acquire` calls made are exactly those granted, those waiting and those that left with CancelledError, each in one of these |
| `LockModel.AcquireGrantsIff` | python-stdlib/asyncio/locks.py:183-188 | In every run `acquire` returns at once exactly if the lock is free and every queued call is cancelled, and else waits as the last |
| `LockModel.CancelledNeverGranted` | python-stdlib/asyncio/locks.py:193-201 | An `acquire` call cancelled while it waits never gets the lock |
| `LockModel.OnlyCancelledLeave` | python-stdlib/asyncio/locks.py:193-201 | A queued call is cancelled only by a cancel of its own earlier in the run |
| `LockModel.HeldByCalls` | python-stdlib/asyncio/locks.py:203-221 | Grants number one more than the successful `release` calls made while the lock is held, and as many while it is free |
| `LockModel.NextInv` | python-stdlib/asyncio/locks.py:177-234 | Each of acquire, release, cancel and resume keeps the lock's invariant |
| `LockModel.Lock.Acquire` | python-stdlib/asyncio/locks.py:177-188 | Takes the lock at once exactly when it is free and all waiters are cancelled, otherwise queues a pending waiter |
| `LockModel.Lock.Resume` | python-stdlib/asyncio/locks.py:193-204 | Leaves the queue; takes the lock, or passes the cancellation on and wakes the next waiter of a free lock |
| `LockModel.Lock.Release` | python-stdlib/asyncio/locks.py:206-221 | Frees a locked lock and wakes the head; refuses a free one without effect |
| `LockModel.Lock.WakeUpFirst` | python-stdlib/asyncio/locks.py:223-234 | Wakes the first waiter if it is pending and nobody else |
| `LockKernel.LockOnKernel` | python-stdlib/asyncio/locks.py:177-234 | Over every run of the lock on the kernel, any other kernel activity and cancellation included: mutual exclusion, arrival order, only the head woken, and whenever the lock is free while a call waits, the wakeup of the head is in the ready queue |
| `LockKernel.SystemSimulates` | python-stdlib/asyncio/locks.py:177-234 | Every state of the lock on the kernel is, seen as a lock, the end of a run of the lock model |
| `LockKernel.StepSimulates` | python-stdlib/asyncio/locks.py:177-234 | Each kernel event and each piece of lock code is at most a few lock events: a foreign event cancels one queued call or none |
| `SuspendedCalls.CancelTouches` | python-stdlib/asyncio/tasks.py:199-230 | A cancel request that reaches a queued call cancels its pending future, or, that being done, marks its task, and touches no other call |
| `SuspendedCalls.TouchedStatus` | python-stdlib/asyncio/tasks.py:199-239 | A queued call stays suspended through foreign events, and its status changes only as a cancelled call's does |
| `SuspendedCalls.ResumedBy` | python-stdlib/asyncio/tasks.py:313-318 | The loop resumes a queued call only when its future is done, with CancelledError exactly if it was cancelled before or after being woken |
| `SuspendedCalls.Suspends` | python-stdlib/asyncio/tasks.py:275-288 | A call that creates its future and awaits it is suspended on it, already cancelled exactly if its task had a cancel request |
| `SemaphoreModel.RunInv` | python-stdlib/asyncio/locks.py:453-510 | In every interleaving: value plus acquires equals initial value plus releases, the value is never negative nor above the bound, while calls wait the woken ones not yet resumed number at least the value, and everyone woken came before everyone waiting |
| `SemaphoreModel.NextInv` | python-stdlib/asyncio/locks.py:464-510 | Each of acquire, release, cancel and resume keeps these |
| `SemaphoreModel.ValueByCalls` | python-stdlib/asyncio/locks.py:464-510 | Over every run the value is the initial one, less one for each `acquire` that found a unit, at once or when woken, plus one for each `release` that was not refused |
| `SemaphoreModel.WaitsWithoutUnit` | python-stdlib/asyncio/locks.py:473-485 | A call waits, under the next number, exactly if it finds no unit; a resumed call leaves; no other event adds or removes one |
| `SemaphoreModel.Semaphore.Acquire` | python-stdlib/asyncio/locks.py:464-485 | Takes one unit exactly when there is one, otherwise queues |
| `SemaphoreModel.Semaphore.Resume` | python-stdlib/asyncio/locks.py:473-485 | A woken call retries; a call cancelled after being woken passes its wakeup on if units remain |
| `SemaphoreModel.Semaphore.Release` | python-stdlib/asyncio/locks.py:487-510 | Adds one unit and wakes the next waiting call; a bounded semaphore at its bound refuses |
| `SemaphoreKernel.SemaphoreOnKernel` | python-stdlib/asyncio/locks.py:453-510 | Over every run of the semaphore on the kernel: units conserved within their bounds, and while a call waits at least as many wakeups of calls are in the ready queue as there are units |
| `SemaphoreKernel.SystemSimulates` | python-stdlib/asyncio/locks.py:453-510 | Every state of the semaphore on the kernel is, seen as a semaphore, the end of a run of the semaphore model |
| `SemaphoreKernel.StepSimulates` | python-stdlib/asyncio/locks.py:453-510 | Each kernel event and each piece of semaphore code is at most two events of the model |
| `Waiters.WakeNextCovers` | python-stdlib/asyncio/locks.py:453-458 | Popping done futures until one can be woken raises the number of woken calls by one whenever anyone waits |
| `Waiters.WakesEarliest` | python-stdlib/asyncio/locks.py:453-458 | It wakes the call that has waited longest and changes no other; with nobody waiting it only empties the deque |
| `Waiters.WakeUpNext` | python-stdlib/asyncio/queues.py:64-70 | The loop drops done futures from the left and wakes the first that is not done |
| `WaitersKernel.WakeUpSimulates` | python-stdlib/asyncio/queues.py:64-70 | Popping done futures and completing the first that is not done is the wake operation of the model |
| `WaitersKernel.WaitSimulates` | python-stdlib/asyncio/queues.py:120-124 | Creating, queueing and awaiting a future is the wait of the model, followed by a cancel if the task had a request |
| `WaitersKernel.ResumeSimulates` | python-stdlib/asyncio/queues.py:120-139 | The loop resumes only calls the model lets resume, with CancelledError exactly if they were cancelled |
| `WaitersKernel.TouchedList` | python-stdlib/asyncio/tasks.py:199-230 | An event from outside cancels one call of the deque or none |
| `QueueModel.RunInv` | python-stdlib/asyncio/queues.py:64-219 | In every interleaving: items put are items got followed by items held, size stays within a positive maxsize, `_finished` is set exactly when puts equal task_dones, waiting getters (putters) imply a woken one for every item (free slot), and in both deques everyone woken came before everyone waiting |
| `QueueModel.NextInv` | python-stdlib/asyncio/queues.py:114-208 | Each operation, cancellation and resumption keeps these |
| `QueueModel.FifoByCalls` | python-stdlib/asyncio/queues.py:114-208 | First in, first out by the calls made: in every run the queue holds what callers passed to the accepted `put` and `put_nowait` calls, in the order of acceptance, less the first items, one for each get that took one; `_finished` is set exactly when as many `task_done` calls succeeded as items were put |
| `QueueModel.CarriedByCalls` | python-stdlib/asyncio/queues.py:114-139 | A `put` that waits carries the item its caller passed, also when it is woken and has to wait again |
| `QueueModel.NextRecorded` | python-stdlib/asyncio/queues.py:114-208 | An event adds to the items put exactly the item of the put it accepts and nothing otherwise; likewise for gets and `task_done` |
| `QueueModel.GiveUpCovers` | python-stdlib/asyncio/queues.py:125-138 | A cancelled call that had been woken hands its wakeup on exactly when it would otherwise be lost |
| `QueueModel.Queue.PutNowait` | python-stdlib/asyncio/queues.py:141-151 | Appends exactly the item passed and wakes a getter, or refuses exactly when full and changes nothing |
| `QueueModel.Queue.GetNowait` | python-stdlib/asyncio/queues.py:179-188 | Hands out the oldest item and wakes a putter, or refuses exactly when empty |
| `QueueModel.Queue.Put` | python-stdlib/asyncio/queues.py:114-139 | Stores the item passed, or, exactly when full, waits carrying it |
| `QueueModel.Queue.Get` | python-stdlib/asyncio/queues.py:153-177 | Returns the oldest item, or waits while empty |
| `QueueModel.Queue.ResumePut` | python-stdlib/asyncio/queues.py:120-139 | Stores the item it carried exactly when woken with room there; when cancelled, leaves the deque and passes on a wakeup it cannot use |
| `QueueModel.Queue.ResumeGet` | python-stdlib/asyncio/queues.py:158-177 | As `ResumePut`, for getters, and returns the oldest item exactly when woken with an item there |
| `QueueModel.Queue.TaskDone` | python-stdlib/asyncio/queues.py:190-208 | Succeeds exactly while fewer task_dones than puts have happened |
| `QueueKernel.QueueOnKernel` | python-stdlib/asyncio/queues.py:114-219 | Over every run of the queue on the kernel: order, bound and `_finished`, and while getters (putters) wait at least as many of their wakeups are in the ready queue as there are items (free slots) |
| `QueueKernel.FifoOnKernel` | python-stdlib/asyncio/queues.py:114-208 | The same first in, first out, by the calls made, over every run of the queue on the kernel |
| `QueueKernel.SystemSimulates` | python-stdlib/asyncio/queues.py:114-219 | Every state of the queue on the kernel is, seen as a queue, the end of a run of the queue model |
| `QueueKernel.StepSimulates` | python-stdlib/asyncio/queues.py:114-219 | Each kernel event and each piece of queue code is at most two events of the model, and what happens in one deque leaves the other alone |
| `Gather.RunInv` | python-stdlib/asyncio/tasks.py:638-744 | In every reachable state the outer future is determined by the history: the first unreturned failure in firing order, CancelledError if some child took a cancel request, the results, or pending; and an empty argument list completes at once |
| `Gather.CompletesOnce` | python-stdlib/asyncio/tasks.py:668-715 | Once completed, the outer future never changes |
| `Gather.ResultsInArgumentOrder` | python-stdlib/asyncio/tasks.py:692-715 | When every distinct child has reported, with no unreturned failure and no cancel request, the result list holds in argument order, duplicates repeated, each child's own value, its exception if that is returned, or CancelledError |
| `Gather.FirstFailureDecides` | python-stdlib/asyncio/tasks.py:668-690 | Unless exceptions are returned, the first child in firing order that did not succeed decides: the outer future holds its exception e, or CancelledError if it was cancelled, whatever comes later |
| `Gather.PendingUntilDecided` | python-stdlib/asyncio/tasks.py:668-694 | Before that, and before the last callback, the outer future is pending |
| `Gather.ChildrenByEvents` | python-stdlib/asyncio/tasks.py:661-694 | In every run the outcomes are those with which children ended, and callbacks are recorded in the order they fired |
| `Gather.CancelByEvents` | python-stdlib/asyncio/tasks.py:623-635 | A cancel is on record exactly if, at some point of the run, a child took one while the outer future was pending |
| `Gather.FiredAll` | python-stdlib/asyncio/tasks.py:692-694 | `nfinished == nfuts` holds exactly when every distinct child's callback has fired, and then all children are done |
| `Gather.GatheringFuture.constructor` | python-stdlib/asyncio/tasks.py:661-743 | Counts distinct arguments only, and completes at once without arguments |
| `Gather.GatheringFuture.DoneCallback` | python-stdlib/asyncio/tasks.py:668-715 | One firing has the prescribed effect and keeps the law above |
| `Gather.GatheringFuture.Cancel` | python-stdlib/asyncio/tasks.py:623-635 | Whichever pending children take the request: returns True, and records it, exactly when the outer future is pending and some child takes it |
| `Gather.TakenCancelPropagates` | python-stdlib/asyncio/tasks.py:709-713 | Once a request was taken and all callbacks have fired, the outer future holds an exception: the first unreturned failure, else CancelledError |
| `Gather.AllDoneRefuses` | python-stdlib/asyncio/tasks.py:623-635 | A gathering future whose children are done refuses every cancel, so one nested in another is a pending child that takes no request |
| `Gather.PendingRefusalExample` | python-stdlib/asyncio/tasks.py:623-635 | Such a state is reached while the outer future is still pending |
| `Gather.TakesIff` | python-stdlib/asyncio/tasks.py:623-635 | For gathering futures inside one another: a cancel is taken if and only if a path through pending gathering futures leads to a pending task or plain future |
| `Gather.CancelChild` | python-stdlib/asyncio/tasks.py:623-635 | The recursion over the children computes exactly that |
| `Timers.RunInv` | python-stdlib/asyncio/base_events.py:1558-1646 | Over every run each timer is in the heap, dropped, or moved exactly once; only cancelled timers are dropped or skipped; each moved one is called once, skipped, or still ready; `_timer_cancelled_count` is never below the cancelled timers in the heap |
| `Timers.DueTimersMove` | python-stdlib/asyncio/base_events.py:1626-1634 | A timer that is not cancelled and is due has been moved by the end of the pass, and what stays behind is not due |
| `Timers.MovedWasDue` | python-stdlib/asyncio/base_events.py:1626-1634 | A timer reaches the ready queue only in a pass whose end time is past its own |
| `Timers.RanWasDue` | python-stdlib/asyncio/base_events.py:1626-1659 | A timer that was called had been scheduled for its time, was then moved by a pass ending after that time, and was called before any cancel of it |
| `Timers.CreatedByEvents` | python-stdlib/asyncio/base_events.py:639-653 | The timers of a run are those of its `call_at` calls, each with the time given |
| `Timers.CancelledByEvents` | python-stdlib/asyncio/events.py:148-151 | The cancelled timers are those that a `cancel` of the run names |
| `Timers.MovedInOrderIff` | python-stdlib/asyncio/base_events.py:1626-1634 | Over any number of passes timers leave in nondecreasing `_when`, if and only if none was scheduled for a time before one that had left |
| `Timers.BackdatedExample` | python-stdlib/asyncio/base_events.py:1626-1634 | A run in which a timer scheduled for the past leaves after a later one |
| `Timers.TimerLoop.CallAt` | python-stdlib/asyncio/base_events.py:639-653 | Adds one new timer, with the time given, to the heap |
| `Timers.TimerLoop.CancelTimer` | python-stdlib/asyncio/events.py:148-151 | Counts a cancellation once, and only of a timer still in the heap |
| `Timers.TimerLoop.DropCancelled` | python-stdlib/asyncio/base_events.py:1571-1592 | Compaction and head trimming take out only cancelled timers and keep a heap of the rest; the count falls by as many or is reset when all are gone, which they are if more than 100 were scheduled and over half cancelled; no cancelled timer is left at the head |
| `Timers.TimerLoop.MoveDue` | python-stdlib/asyncio/base_events.py:1626-1634 | Moves exactly the timers before the end time, earliest first |
| `Timers.TimerLoop.RunNext` | python-stdlib/asyncio/base_events.py:1643-1646 | Calls the next ready timer unless it was cancelled meanwhile |
| `Streams.StreamReader.ReadUntil` | python-stdlib/asyncio/streams.py:510-599 | However the stream was cut into feeds: the prefix ending at the first separator of the whole stream when that starts within the limit, LimitOverrun when it starts past it or the stream is past the limit without one, with the place of the separator in the buffer or how far none can start, everything, and only then, when the stream has ended; bytes returned and buffered are the bytes fed; it waits only while nothing is decided; a stored exception is raised at once, another by the wait it ends, and a second waiting read is refused |
| `Streams.ReadUntilDetermined` | python-stdlib/asyncio/streams.py:510-529 | The whole-stream specification admits one result, up to the `consumed` hint |
| `Streams.StreamReader.Scan` | python-stdlib/asyncio/streams.py:560-578 | Searching only past `offset` finds the first separator of the buffer or shows there is none |
| `Streams.Find` | python-stdlib/asyncio/streams.py:566-571 | The first occurrence from an offset is the first of all when none lies before the offset |
| `Streams.StreamReader.ReadExactly` | python-stdlib/asyncio/streams.py:651-690 | The first n bytes of the stream, or, only once it has ended, all of a shorter one as incomplete, with bytes conserved; exceptions and a second waiting read as in `ReadUntil` |
| `Streams.StreamReader.BeginWait` | python-stdlib/asyncio/streams.py:452-471 | Refuses exactly when another read is waiting, and never waits with a paused transport |
| `Streams.StreamReader.Arrive` | python-stdlib/asyncio/streams.py:396-411 | What is fed during a wait is appended whole, and the wait raises an exception exactly when that is the first thing to arrive |
| `Streams.RaisedByFirst` | python-stdlib/asyncio/streams.py:396-411 | A wait raises exactly the exception that is given before any data or the end arrive |
| `Streams.StoredLast` | python-stdlib/asyncio/streams.py:396-411 | The exception later reads raise is the last one given |
| `Streams.StreamIsData` | python-stdlib/asyncio/streams.py:430-450 | The stream that results are stated on is the data fed, in order, whatever else arrives and however it is cut |
| `Streams.StreamReader.FeedData` | python-stdlib/asyncio/streams.py:430-450 | Appends the data, and pauses the transport exactly when the buffer passes twice the limit |
| `StreamWaiter.NoneLostIff` | python-stdlib/asyncio/streams.py:405-411 | Over every run of several reads, cancelled ones included: none is left waiting for good if and only if no read resumes while another, started since it was woken, waits |
| `StreamWaiter.NextLost` | python-stdlib/asyncio/streams.py:452-477 | Each step loses exactly the read whose future it drops, and only a cancel ends that |
| `StreamWaiter.OneAtATime` | python-stdlib/asyncio/streams.py:457-463 | A caller that starts a read only when no other is unfinished loses none |
| `StreamWaiter.LostExample` | python-stdlib/asyncio/streams.py:452-477 | A run in which a second read, started between the wakeup and the resumption of the first, is lost |
| `Transport.SocketTransport.Run` | python-stdlib/asyncio/selector_events.py:854-923 | After any run: the writer is registered exactly when the buffer is nonempty, pause and resume calls strictly alternate, an unpaused protocol means a buffer within the high-water mark; without failed sends, bytes sent followed by the buffer are the bytes accepted, and the socket is shut down for writing exactly when `write_eof` was called and all of them are sent; unless the protocol writes from its callbacks, the bytes accepted are exactly those written before `write_eof` |
| `Transport.SocketTransport.Write` | python-stdlib/asyncio/selector_events.py:854-888 | Accepts exactly the data, followed by what `pause_writing` writes if it is called; sends, and only when nothing is buffered, exactly what the socket takes; and leaves the protocol paused exactly when it was or the buffer is past the mark |
| `Transport.SocketTransport.WriteReady` | python-stdlib/asyncio/selector_events.py:890-916 | Sends from the front of the buffer; resumes the protocol exactly when paused and at or below the low mark, also when `resume_writing` writes again; a failed send drops the buffer |
| `Transport.SocketTransport.MaybeResume` | python-stdlib/asyncio/transports.py:224-236 | One resume signal exactly when due, and the flow laws survive what the protocol writes |
| `Transport.SocketTransport.MaybePause` | python-stdlib/asyncio/transports.py:208-222 | Restores the high-water law after the buffer grew |
| `Transport.SocketTransport.SetWriteBufferLimits` | python-stdlib/asyncio/transports.py:241-259 | Sets defaulted marks, refuses exactly when not high >= low >= 0, and re-establishes the high-water law |
| `Transport.SocketTransport.WriteEof` | python-stdlib/asyncio/selector_events.py:918-923 | Unless the connection is lost every later write is refused; the socket is shut down at once exactly when nothing is buffered, and otherwise once the buffer has gone out |
| `Deepcopy.Deepcopy` | python-stdlib/copy/copy.py:163-213 | On any finite graph, cycles included, it terminates, leaves the original untouched, and returns a graph with the same shape along every path, the same sharing between any two paths, and no list or dict of the original; it returns its argument itself exactly when that holds no list or dict |
| `Deepcopy.CopyIsIsomorphic` | python-stdlib/copy/copy.py:163-213 | A finished memo makes original and copy isomorphic with nothing mutable shared |
| `Deepcopy.FollowCopy` | python-stdlib/copy/copy.py:163-213 | Following any path commutes with copying |
| `Deepcopy.Copier.DeepCopy` | python-stdlib/copy/copy.py:172-213 | Settles its argument, changes no existing object, finishes all it memoizes; the measure is lists and dicts not yet in the memo, then tuple nesting |
| `Deepcopy.Copier.DeepcopyMutable` | python-stdlib/copy/copy.py:245-283 | Memoizing the empty copy first makes cycles end in it; the filled copy has all items |
| `Deepcopy.Copier.DeepcopyTuple` | python-stdlib/copy/copy.py:256-272 | A tuple reached again through its own items is copied once; one with nothing to copy is kept |
| `Deepcopy.TupleUnchanged` | python-stdlib/copy/copy.py:266-271 | All items came back as themselves if and only if no list or dict lies in the nested tuples |
| `Heapq.Siftdown` | python-stdlib/heapq/heapq.py:257-269 | From a heap except above one position, restores the heap from `startpos` on, keeping the elements and everything before it |
| `Heapq.Siftup` | python-stdlib/heapq/heapq.py:312-330 | Bubbling the hole to a leaf and sifting back makes a heap of the subtree, keeping the elements; on two elements it exchanges all but strictly ordered ones |
| `Heapq.Heappush` | python-stdlib/heapq/heapq.py:142-145 | Heap in, heap out, one element more, which becomes the root exactly when it is less than the root |
| `Heapq.Heappop` | python-stdlib/heapq/heapq.py:148-157 | Returns a least element and keeps a heap of the others; refuses only an empty list |
| `Heapq.Heapreplace` | python-stdlib/heapq/heapq.py:160-174 | Exchanges the root for the item and restores the heap even if the root was changed in place |
| `Heapq.Heappushpop` | python-stdlib/heapq/heapq.py:177-182 | Returns the root if it is less than the item and the item otherwise, in both cases a least element of heap and item together, and keeps a heap of the rest |
| `Heapq.Heapify` | python-stdlib/heapq/heapq.py:185-194 | Makes a heap of the same elements, for any comparison that refines a weak order on them |
| `Heapq.RootIsLeast` | python-stdlib/heapq/heapq.py:148-157 | No element of a heap is less than its root |
| `HeapqSelect.PushpopAgreesIff` | python-stdlib/heapq/heapq.py:177-182 | For every weak order, `heappushpop` and push followed by pop return the same element and keep the same ones, if and only if the heap is empty, or root and item are not tied, or equal |
| `HeapqSelect.PushpopDiffers` | python-stdlib/heapq/heapq.py:177-182 | On a heap of one element tied with the item but different from it, `heappushpop` returns the item and push followed by pop the element |
| `HeapqSelect.PopAll` | python-stdlib/heapq/heapq.py:148-157 | Repeated `heappop` yields a sorted permutation |
| `HeapqSelect.Nsmallest` | python-stdlib/heapq/heapq.py:233-251 | Sorted, of the right length, with nothing left out smaller; the first n of the sorted input whenever tied elements of that input are equal |
| `HeapqSelect.TiesReversed` | python-stdlib/heapq/heapq.py:233-251 | For every two elements that compare neither way this function returns `[b, a]` for n = 2 and `[a, b]`, although sorting gives `[a, b]` |
| `HeapqSelect.Nlargest` | python-stdlib/heapq/heapq.py:212-230 | The same from the other end, in descending order |
| `HeapqSelect.SortedUnique` | python-stdlib/heapq/heapq.py:233-251 | Elements among which tied ones are equal have one sorted arrangement |
| `HeapqMerge.Merge` | python-stdlib/heapq/heapq.py:378-415 | For every weak order, every element of every sorted input once, in sorted order and each input in its own order; tied elements in the order of the inputs whenever tied elements of different inputs are equal |
| `HeapqMerge.MergePairIff` | python-stdlib/heapq/heapq.py:392-415 | `merge([a], [b])` keeps the order of the inputs if and only if a and b are not tied, or equal; tied and different, b comes first |
| `HeapqMerge.EntryLtRefines` | python-stdlib/heapq/heapq.py:394-400 | The comparison of the heap's lists, equality first, never contradicts the order of the values, nor the stable order where tied elements of different inputs are equal |
| `HeapqMerge.YieldHead` | python-stdlib/heapq/heapq.py:402-408 | Yielding a least head keeps the output complete up to the cursors, in order, and before all that is to come |
| `HeapqMerge.ReplaceRoot` | python-stdlib/heapq/heapq.py:405-408 | Changing the root in place and then replacing it by itself exchanges one head for the next |
| `HeapqMerge.Advance` | python-stdlib/heapq/heapq.py:405-410 | After a yield the heap holds exactly the heads of the inputs not exhausted |
| `HeapqMerge.YieldRest` | python-stdlib/heapq/heapq.py:411-415 | The single-iterator path completes the output in order |
| `Chunked.ChunkedRoundTrip` | python-stdlib/http/client.py:517-563 | For any chunks and any sequence of `read` and `readinto` sizes the calls deliver the concatenation in order; once it is exceeded, all of it, with exactly the body consumed |
| `Chunked.ReadAllRoundTrip` | python-stdlib/http/client.py:517-539 | `read()` returns the whole body and consumes exactly it |
| `Chunked.BodyArrives` | python-stdlib/http/client.py:463-563 | The same for every body whose size lines use digits of either case, leading zeros, white space or a `;` extension, and which may end in trailer fields: any sequence of reads gets exactly the payload and consumes exactly the body |
| `Chunked.BodyReadAll` | python-stdlib/http/client.py:463-539 | `read()` returns the whole payload of every such body |
| `Chunked.ReadsPayload` | python-stdlib/http/client.py:517-539 | One read anywhere inside such a body delivers the next bytes and leaves the reader standing after them, or all of it at the end of the body |
| `Chunked.SendBody` | python-stdlib/http/client.py:1034-1048 | The writer emits every nonempty chunk with its size and one last chunk |
| `Chunked.HexRoundTrip` | python-stdlib/http/client.py:1042-1043 | Parsing the hexadecimal size gives the size back |
| `Chunked.DigitTable` | python-stdlib/http/client.py:472 | A byte is read as digit d exactly if it is the d-th of `0123456789abcdef` or of `0123456789ABCDEF` |
| `Chunked.HexValueIff` | python-stdlib/http/client.py:472 | Digits without underscores are read as n exactly if they write n in base 16 |
| `Chunked.ParsesSizeLine` | python-stdlib/http/client.py:463-472 | A size line is read as the number its digits write, in either case, whatever white space or `;` extension follows |
| `Chunked.SignedForms` | python-stdlib/http/client.py:472 | A `0x` prefix and a plus sign do not change the number, a minus sign negates it |
| `Chunked.UnderscoreBetween` | python-stdlib/http/client.py:472 | An underscore between digits does not count |
| `Chunked.TrailerEnds` | python-stdlib/http/client.py:479-491 | Any trailer fields are consumed up to the blank line and nothing after it |
| `Chunked.WrittenForm` | python-stdlib/http/client.py:1034-1048 | The bytes the writer sends around a chunk's data, and the last chunk |
| `Chunked.HTTPResponse.GetChunkLeft` | python-stdlib/http/client.py:463-515 | Opens the next chunk, or ends the body, with the source's errors; which number a size line gives is `ParsesSizeLine` |
| `Chunked.HTTPResponse.DiscardTrailer` | python-stdlib/http/client.py:479-491 | Consumes lines up to the blank one or the end, refusing a line over the limit |
| `Chunked.HTTPResponse.ReadChunked` | python-stdlib/http/client.py:517-539 | Reads as the reader specification says on every wire, malformed ones and negative sizes included |
| `Chunked.HTTPResponse.ReadIntoChunked` | python-stdlib/http/client.py:541-563 | Fills the buffer as its specification says on every wire, negative sizes included |
| `Chunked.ReadersAgreeIff` | python-stdlib/http/client.py:517-563 | The two readers agree in bytes, errors and state if and only if no negative size comes up, or the connection ends just where the buffer shortened by it is full |
| `Chunked.ReadIntoAgrees` | python-stdlib/http/client.py:517-563 | On every body of `BodyArrives`, at any point of it, they agree for every buffer length |
| `Chunked.NegativeSwallows` | python-stdlib/http/client.py:517-539 | A negative size makes `read` take the connection to its end and fail with IncompleteRead |
| `Chunked.ReadersDiffer` | python-stdlib/http/client.py:517-563 | After the size line `-1` and two bytes the readers fail with different partial data for a buffer of two, and agree for a buffer of three |
| `ChunkedTruncation.TruncationDetected` | python-stdlib/http/client.py:493-583 | `read()` of any first part of an encoded body succeeds if and only if everything up to the `0` of the last chunk arrived, and then gives the whole payload; otherwise IncompleteRead carries a prefix of it |
| `ChunkedTruncation.TruncationDetectedByRequests` | python-stdlib/http/client.py:493-583 | Any sequence of `read` and `readinto` sizes on such a part: past that point it sees no difference; before it each call gets the bytes it asks for or fails with a piece of the payload, so no sequence takes the cut for the end |
| `ChunkedTruncation.CutServed` | python-stdlib/http/client.py:493-583 | One request anywhere in a cut body: the bytes asked for, all of them if no more than the last line ends are missing, or an error that hands out nothing that was not sent |
| `ChunkedTruncation.CutSize` | python-stdlib/http/client.py:463-477 | A size line cut anywhere never reads as the last chunk |
| `Base64.B2aBase64` | python-stdlib/binascii/binascii.py:334-362 | Although its accumulator is never masked, the loop emits the base64 of the bytes, with a newline if asked |
| `Base64.A2bBase64` | python-stdlib/binascii/binascii.py:290-326 | The loop decodes as specified from every input, incorrect padding included |
| `Base64.Alphabet` | python-stdlib/binascii/binascii.py:331 | Symbols are written and read as the 64 characters of the RFC in order |
| `Base64.GroupSpells` | python-stdlib/binascii/binascii.py:334-362 | The four symbols of a group spell its three bytes, most significant bits first; a last group of one or two bytes is filled with zero bits and pads |
| `Base64.Base64RoundTrip` | python-stdlib/binascii/binascii.py:290-362 | Decoding inverts encoding on every byte string |
| `Base64.CutRefusedIff` | python-stdlib/binascii/binascii.py:290-326 | An encoding cut short is refused exactly if the cut does not fall between groups of four; else it gives the bytes of the groups left |
| `Base64.NoiseInvariant` | python-stdlib/binascii/binascii.py:306-308 | Inputs that differ only in bytes outside the alphabet decode alike |
| `Base64.EncodeBytes` | python-stdlib/base64/base64.py:398-407 | The loop emits the base64 of 57 bytes at a time, each with its newline |
| `Base64.LineBreaks` | python-stdlib/base64/base64.py:398-407 | Newlines stand after every 76 symbols and at the end, and nowhere else |
| `Base64.EncodeBytesRoundTrip` | python-stdlib/base64/base64.py:398-422 | `decodebytes` inverts `encodebytes` however many lines there are |
| `Base32.B32Encode` | python-stdlib/base64/base64.py:213-256 | The quanta loop over zero-padded input, with its tail replaced, is the base32 of the bytes |
| `Base32.CutIsExact` | python-stdlib/base64/base64.py:227-246 | The digits cut from the 16, 17 and 10 bit pieces spell the quantum |
| `Base32.Alphabet` | python-stdlib/base64/base64.py:174-210 | Symbols are written and read as the 32 characters of the RFC in order |
| `Base32.B32Decode` | python-stdlib/base64/base64.py:259-330 | The loop decodes as specified from every input and with every option, with its two errors told apart |
| `Base32.Base32RoundTrip` | python-stdlib/base64/base64.py:213-330 | Decoding inverts encoding on every byte string, for all five leftovers |
| `Base32.DecodeErrors` | python-stdlib/base64/base64.py:259-330 | Which input is refused, and how: a length that is no multiple of 8, a character outside the alphabet before the first pad, or a number of characters from that pad on that no encoding ends in |
| `Base32.Map01RoundTrip` | python-stdlib/base64/base64.py:285-290 | With `map01` an encoding in which O is written as 0 and the given letter as 1 decodes as well |
| `Base32.Base32OptionsRoundTrip` | python-stdlib/base64/base64.py:259-330 | `casefold` and `map01` do not disturb an encoding, and with `casefold` one in lower case decodes too |
| `Slip.UnescapeEscape` | micropython/espflash/espflash.py:115-132 | Unescaping an escaped packet gives the packet with each adjacent DB DC turned into C0 |
| `Slip.RoundTripIff` | micropython/espflash/espflash.py:115-132 | The round trip is exact if and only if the packet has no adjacent DB DC |
| `Slip.RoundTripFails` | micropython/espflash/espflash.py:115-132 | DB DC arrives as C0 |
| `Slip.FrameBytes` | micropython/espflash/espflash.py:115-118 | The bytes of the RFC: C0 around the packet, in which C0 is sent as DB DC and DB as DB DD, byte by byte |
| `Slip.EscapedHasNoEnd` | micropython/espflash/espflash.py:116-117 | The delimiter never appears inside an escaped packet |
| `Slip.EscapeIsBytewise` | micropython/espflash/espflash.py:116 | The two replacement passes escape each byte on its own |
| `Slip.ReadSlip` | micropython/espflash/espflash.py:120-132 | A packet exactly when the first byte is a delimiter: what arrives up to the next delimiter or timeout, unescaped |
| `Slip.ReadWrittenFrame` | micropython/espflash/espflash.py:115-132 | Reading a written frame gives that packet and stops right after the frame, whatever follows |
| `Datetime.O2ymd` | python-stdlib/datetime/datetime.py:22-39 | The valid date whose ordinal is n, for every n from 1 on, also by the formulas without tables |
| `Datetime.MonthLengths` | python-stdlib/datetime/datetime.py:10-14 | Months other than February have 30 + (m + m / 8) % 2 days; February has what remains of its year |
| `Datetime.MonthsAddUp` | python-stdlib/datetime/datetime.py:10-19 | The days before a month are the sum of the earlier months, and twelve months make a year |
| `Datetime.OrdinalFormula` | python-stdlib/datetime/datetime.py:277-287 | The ordinal of every date by a formula without tables, counting years from March |
| `Datetime.ValidByFormula` | python-stdlib/datetime/datetime.py:6-19 | A date is valid exactly if its day lies within the month as these formulas give it, with the length of the year that of the ordinal formula |
| `Datetime.DateRoundTrip` | python-stdlib/datetime/datetime.py:22-39 | A date goes to its ordinal and back to itself |
| `Datetime.OrdinalPreservesOrder` | python-stdlib/datetime/datetime.py:277-287 | Ordinals are ordered as the dates are, both ways |
| `Datetime.DateRange` | python-stdlib/datetime/datetime.py:277-287 | Within the year range ordinals run from 1 to 3652059, and dates past it lie beyond |
| `Datetime.DateIff` | python-stdlib/datetime/datetime.py:277-287 | Which arguments `_date` accepts, and the ordinal it gives, by the formulas without tables |
| `Datetime.MonthGuess` | python-stdlib/datetime/datetime.py:33-37 | The month guess is right or one too high |
| `Datetime.LastDay` | python-stdlib/datetime/datetime.py:31-32 | The last day of a four-year or four-hundred-year cycle is 31 December |
| `Datetime.AddMoves` | python-stdlib/datetime/datetime.py:706-710 | Adding moves the instant by the timedelta, exactly within the supported range |
| `Datetime.AddSubInverse` | python-stdlib/datetime/datetime.py:706-737 | `(dt + td) - dt` is td and `dt + (other - dt)` is other |

## Left out

- Sockets, selectors, signals, pipes, name resolution, threads, TLS (`sslproto`) and `concurrent.futures`: operating-system or unseen behaviour.
- Handles' context variables, debug logging, closed loops and futures attached to another loop (the last is among the bad yields).
- KernelInvariant.RunInv: runs exclude wakeups for futures that hold an exception outside `Exception`; `BeginKeepsInvariantIff` shows the exclusion is exact.
- KernelInvariant.ExactlyOneResumption: the kernel's futures are plain futures and tasks; a task that awaits a gathering future, whose `cancel` does not complete it, is not in the kernel model.
- Gather.RunInv: the firing of each child's callback once is an event of the model; that the kernel fires each callback once is `KernelCounts.CallbacksFireOnce`, and the two are not composed.
- Timers.RunInv: the clock is a parameter of each pass; the select timeout is not modelled.
- `Condition` (its notifications can be lost under cancellation), the waiters of `Event` and the suspension inside `Queue.join`; `PriorityQueue` and `LifoQueue`.
- SemaphoreModel.Semaphore.constructor: takes a natural number; the ValueError for a negative one is not modelled.
- Streams: `read`, `readline`, and the ValueError for a limit that is not positive.
- Transport.SocketTransport.Run: close, abort, `connection_lost` delivery, sendfile's empty waiter, type errors and exceptions raised by the protocol's callbacks are not modelled; data held in a buffer is dropped by a failed send, as in the source.
- Deepcopy.Deepcopy: `__deepcopy__`, `__reduce_ex__`, bound methods, compound dict keys and the keep-alive list; indices stand for `id`.
- Heapq: the keyed `nsmallest` and `nlargest` (with a key they rest on a `tee` that returns the same iterator twice; without one they short-cut to `min`, `max` or `sorted`, or decorate for the functions modelled).
- HeapqSelect.Nsmallest: where tied elements differ it promises a sorted selection with nothing left out smaller, not which of them is chosen; `TiesReversed` shows why.
- HeapqMerge.Merge: where tied elements of different inputs differ it promises sorted output, not their order; `MergePairIff` shows why.
- Chunked.ChunkedRoundTrip: chunk sizes whose size line exceeds the reader's limit of 1000 bytes are excluded, as the reader refuses them.
- HTTP bodies that are not chunked, `read1`, HEAD responses and header parsing.
- Base32.B32Decode: `map01` is one byte by type, so the assertion on its length is not modelled; alternative base64 alphabets and base16.
- Datetime: time zones, `strptime`, ISO parsing, `timestamp`, and rounding of fractional microseconds in `timedelta`.
- The rest of the collection (network clients, servers, logging, argument parsing, tools, small wrappers): I/O or only easy members.
