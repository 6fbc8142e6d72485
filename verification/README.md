# Verified models of libev's loop and of three lock-free queues

These Dafny modules model the concurrent protocols and the event-loop bookkeeping of the
repository and prove what its documentation, comments and assertions promise of them.
`dafny verify dfyconfig.toml` checks all of it.

## The parts

**Lock-free queues** (`MichaelScottQueue`, `MpmcRing`, `SpscRing`) and **libev's wake-up
protocol** (`WakeUp`) are small-step transition systems with any number of threads.  Each atomic
access of the program is one step, a run is any interleaving, and history variables, which no
branch looks at, say what the answers mean.

**The pending queues, timers, periodics and the fd table** (`EventLoop`, `PendingQueues`,
`TimerHeap`, `Timers`, `PeriodicTimes`, `Periodics`, `Growth`, `FdInterest`, `Blocking`, `Once`) are
classes whose methods update fields and arrays in place, as the C code does.  The 4-ary heap lives
in an array from index 3 on, with cached deadlines and the back-index in the watcher.  A queue
object keeps a ghost trace of everything fed, cleared and delivered; `Expected` reads off it the
bits that a watcher is due, and the class invariant ties the real slots to it.

**The backends** (`Readiness`, `PollBackend`, `SelectBackend`, `EpollBackend`) are proved against one
predicate, `Readiness.Told`, which says what a poll does to every watcher, so that they agree with each
other about open fds; a closed one is killed by poll and select, and not reported by epoll.  poll keeps a dense array and its inverse, select two bit vectors, and epoll a lazily updated
kernel table that is modelled with its failures.  An event mask is the set of its one-bits.

## Where the code and its comments differ

The models follow the code.

- `lockfree_mpmc_queue.hpp` claims a position before it compares the stamp and filters by parity
  only.  So with two producers a claimed position can stay unwritten
  (`MpmcRing.LappedClaimLeavesHole`), and with two consumers two can move out of one slot
  (`MpmcRing.LappedClaimReadsTwice`).  `MpmcRing.HoleIffLapped` and `MpmcRing.ReadyIffWritten` give the
  exact conditions for a claim, and `MpmcRing.ExactlyOnceIffOneEach` the one for a client.  A capacity of
  one passes the constructor's test and does not work (`MpmcRing.CapacityOneOverwrites`); so does a
  capacity of zero, with which every call indexes an empty buffer.
- The comment in `lockfree_spsc_queue.hpp` speaks of one slot kept free; the code uses all of them.
- The manual says that a periodic is due at the next `offset + N * interval`.  For intervals
  below MIN_INTERVAL that need not be so: `PeriodicTimes.RecalculatedOnGrid` has the exact condition.
- In the slow path of `downheap` the check for a fourth child cannot succeed; it is left out.

## Model

| member | source | states |
|---|---|---|
| `MichaelScottQueue.QueueIsLinearizable` | examples/lock_free/lockfree_ms_queue.hpp:110-217 | Every interleaving of any number of threads is linearizable to an atomic FIFO queue: the effects written down at the linking compare-and-swap, at the successful swap of `head_` and at an empty read replay as a FIFO, and every response has exactly one effect inside its call. |
| `MichaelScottQueue.RealTimeOrder` | examples/lock_free/lockfree_ms_queue.hpp:88-156 | A call that has returned after any part of a run takes effect before every call that is begun later in the run. |
| `MichaelScottQueue.AnswersWhatWasAsked` | examples/lock_free/lockfree_ms_queue.hpp:110-217 | Over every run, a thread has begun exactly the calls that it was asked for, and each effect and each response of its c-th call is of the operation, with the value, that this call was asked for. |
| `MichaelScottQueue.CallsAnswered` | examples/lock_free/lockfree_ms_queue.hpp:110-217 | Each call that a thread was asked for, but for the one it is still inside, has a response to what was asked. |
| `MichaelScottQueue.QueueIsSafe` | examples/lock_free/lockfree_ms_queue.hpp:112-155 | No thread follows a null pointer, `head_` never passes `tail_`, `tail_` is at most one node behind the end of the list, and no two threads move the value out of one node. |
| `MichaelScottQueue.ReturnedCallsAnswered` | examples/lock_free/lockfree_ms_queue.hpp:110-217 | Every call that has returned has a response, so the linearizability statement leaves none out. |
| `MichaelScottQueue.RunKeeps` | examples/lock_free/lockfree_ms_queue.hpp:65-71 | The structural and history invariant holds from the constructor on, over whole runs. |
| `MichaelScottQueue.LockFree` | examples/lock_free/lockfree_ms_queue.hpp:110-217 | From every reachable state, when threads inside calls take more steps than 28 for each thread, in any order and without spurious failures, some call meanwhile takes effect or returns. |
| `MichaelScottQueue.StepsArePaidFor` | examples/lock_free/lockfree_ms_queue.hpp:110-217 | The same for any schedule at all: the steps that threads inside calls take are bounded by the effects, the returns, the calls begun and the spurious failures among them. |
| `MichaelScottQueue.StepIsPaidFor` | examples/lock_free/lockfree_ms_queue.hpp:112-216 | The potential behind it, over all threads: it drops with each step that neither takes effect nor returns nor fails spuriously; helping `tail_` along may send every other thread round once more, and is paid for in advance. |
| `MichaelScottQueue.ObstructionFree` | examples/lock_free/lockfree_ms_queue.hpp:112-216 | From every reachable state a thread running alone, with compare-and-swaps that do not fail spuriously, finishes its call within 14 steps. |
| `MichaelScottQueue.AloneFinishes` | examples/lock_free/lockfree_ms_queue.hpp:181-216 | The measure behind it: helping a lagging `tail_` and retrying both lower a bound on the steps that are left. |
| `WakeUp.NoLostWakeUp` | libev-master/ev.c:2516-2563 | In every reachable state in which the loop blocks in the backend and a flag is raised, the pipe is readable unless a sender that raised a flag is still inside `evpipe_write`; any number of senders, both flags, the stale clear of `pipe_write_skipped` included. |
| `WakeUp.RunKeepsWakeInv` | libev-master/ev.c:3786-3851 | The covering invariant over whole runs: a raised flag is announced, written to the pipe, in the hands of a committed sender, or about to be tested by `pipecb`. |
| `WakeUp.SendsAreConserved` | libev-master/ev.c:2622-2637 | Each store of a mark is accounted for exactly once, by a feed already made, by the feed in progress or by the mark; each feed answers at least one store; a marked item is covered by a flag, a sender before its flag, or the scan in progress. |
| `WakeUp.CallsAreConserved` | libev-master/ev.c:5187-5191 | In terms of the calls: over every run, the calls that name item i are as many as those answered by feeds of item i, in hand, or marked on item i (likewise `ev_feed_signal`, libev-master/ev.c:2644-2657). |
| `WakeUp.EverySendIsDelivered` | libev-master/ev.c:2574-2639 | From every reachable state without senders inside a call, the loop by itself feeds every marked item within two passes and without sleeping first. |
| `WakeUp.SendIsDeliveredMeanwhile` | libev-master/ev.c:2516-2639 | While senders go on sending in any interleaving: a marked item is fed before the loop has taken five passes of steps, not counting those it takes while a sender that found a flag down has yet to raise it, announce it or wake the loop. |
| `WakeUp.EveryCallIsFed` | libev-master/ev.c:2516-2639 | And so all calls that have named item i by some moment have been answered by feeds of item i after that many further steps, whatever is sent meanwhile. |
| `WakeUp.LoopComesToSleep` | libev-master/ev.c:2574-2602 | The loop does not spin: without senders inside a call it comes to block on an empty pipe, within a number of passes that the bytes in the pipe bound. |
| `WakeUp.LaterSenderHoldsUp` | libev-master/ev.c:2516-2563 | That exception is needed: a reachable state in which a signal is raised, its sender has returned, and no number of loop steps feeds it while a later sender is stopped between clearing `pipe_write_skipped` and writing. |
| `WakeUp.SendersAreWaitFree` | libev-master/ev.c:2516-2563 | In any interleaving, a sender that takes six steps of its own has returned in the meantime, whatever the loop and the others do (likewise `ev_async_send`, libev-master/ev.c:5187-5191), so that it cannot go on holding up a delivery. |
| `WakeUp.LoopLowersRank` | libev-master/ev.c:3786-3851 | Behind the bound: every step of the loop outside that exception brings it nearer to feeding a given marked item, or feeds it, and no step of anyone takes it further away. |
| `MpmcRing.ExactlyOnceInOrder` | examples/lock_free/lockfree_mpmc_queue.hpp:130-187 | In every loss-free run, for powers of two from 2 on: positions are claimed in order, each is written once and read once, what is read is what was written there, no claim leaves a hole, and stamps go p, p+1, p+capacity. |
| `MpmcRing.CallsAnswered` | examples/lock_free/lockfree_mpmc_queue.hpp:130-288 | Over every run, loss-free or not: each call of a thread but the one in progress has had exactly one answer, in order, of its own kind and, for an enqueue, about its own value. |
| `MpmcRing.AloneIsAQueue` | examples/lock_free/lockfree_mpmc_queue.hpp:130-288 | Between calls the ring is a bounded FIFO queue: an enqueue that runs alone appends its value, or, when the ring is full, comes round to where it began; a dequeue that runs alone takes the oldest value, or reports that there is none. |
| `MpmcRing.HoleIffLapped` | examples/lock_free/lockfree_mpmc_queue.hpp:246-288 | The exact condition: a claim on `head_` gives its position up unwritten if and only if the enqueue one lap earlier had not stored its stamp when this call loaded it. |
| `MpmcRing.LossFreeIffOrderly` | examples/lock_free/lockfree_mpmc_queue.hpp:130-288 | Loss freedom is exact: a run is loss-free if and only if at no moment an enqueue has given up its position or a dequeue has claimed one that nobody wrote. |
| `MpmcRing.ReadyIffWritten` | examples/lock_free/lockfree_mpmc_queue.hpp:143-168 | The exact condition for dequeues: the claim on `tail_` finds the value written there if and only if the stamp load was not lapped or the position has been written since. |
| `MpmcRing.ExactlyOnceIffOneEach` | examples/lock_free/lockfree_mpmc_queue.hpp:130-288 | The condition a client can meet: all runs of given producers and consumers are loss-free if and only if there is at most one of each, or no producer. |
| `MpmcRing.OneEachIsLossFree` | examples/lock_free/lockfree_mpmc_queue.hpp:130-288 | Runs with one producer and one consumer are loss-free, so `ExactlyOnceInOrder` holds of all of them. |
| `MpmcRing.LappedClaimLeavesHole` | examples/lock_free/lockfree_mpmc_queue.hpp:267-287 | For every power of two from 2 on, two producers can reach a state in which a claimed position is never filled. |
| `MpmcRing.LappedClaimReadsTwice` | examples/lock_free/lockfree_mpmc_queue.hpp:143-168 | And two consumers can reach one in which both are about to move out of the same slot, with `tail_` beyond `head_`. |
| `MpmcRing.CapacityOneOverwrites` | examples/lock_free/lockfree_mpmc_queue.hpp:43-65 | The constructor accepts a capacity of one, and there a second enqueue overwrites an unread value and returns true. |
| `MpmcRing.EnqStampOk` | examples/lock_free/lockfree_mpmc_queue.hpp:254-272 | Given the invariant, the parity test passes an enqueuer of the next position with the right stamp exactly when the earlier lap is finished. |
| `MpmcRing.DeqStampOk` | examples/lock_free/lockfree_mpmc_queue.hpp:138-168 | The same for the dequeue side. |
| `MpmcRing.RunKeeps` | examples/lock_free/lockfree_mpmc_queue.hpp:43-65 | The life of every slot, from claim to release, over whole loss-free runs. |
| `SpscRing.ConsumedIsPrefix` | examples/lock_free/lockfree_spsc_queue.hpp:70-120 | For every capacity 2^k below the word size, in every interleaving and across counter wrap: the consumed values are a prefix of the produced ones, the rest never exceeds the capacity and is what the slots hold. |
| `SpscRing.CallsAnswered` | examples/lock_free/lockfree_spsc_queue.hpp:70-88 | Each call of `enqueue` but the one in progress has had one answer, and the values whose calls returned true are, in order, the values produced. |
| `SpscRing.DequeuesAnswered` | examples/lock_free/lockfree_spsc_queue.hpp:105-120 | Each call of `dequeue` but the one in progress has returned one value or one refusal. |
| `SpscRing.CallsEnd` | examples/lock_free/lockfree_spsc_queue.hpp:70-120 | Both sides are wait-free: each step brings a call nearer to its end. |
| `SpscRing.SlotsAreNotClobbered` | examples/lock_free/lockfree_spsc_queue.hpp:82-85 | A slot is written only while it holds no unread value, and read only while it holds the next one. |
| `SpscRing.RefusalsAreJustified` | examples/lock_free/lockfree_spsc_queue.hpp:79-112 | `enqueue` refuses if and only if the ring is full at its load of `read_`, `dequeue` if and only if it is empty at its load of `write_`. |
| `SpscRing.ZeroCapacityRefuses` | examples/lock_free/lockfree_spsc_queue.hpp:46-53 | A capacity of zero, which the constructor lets through, makes a ring that refuses every value. |
| `SpscRing.Distance` | examples/lock_free/lockfree_spsc_queue.hpp:79 | The unsigned difference of the wrapped counters is the number of buffered values. |
| `PendingQueues.Queues.FeedEvent` | libev-master/ev.c:2022-2040 | Feeding appends a slot and links it to its watcher, or ORs the bits into the slot of a pending watcher; slots and `pending` stay inverse to each other. |
| `PendingQueues.Queues.ClearPending` | libev-master/ev.c:3971-3995 | Clearing empties the slot, idles the watcher and returns the bits it was pending for. |
| `PendingQueues.Queues.InvokePending` | libev-master/ev.c:3444-3462 | For callbacks that feed and clear a finite total: terminates with all queues empty; each delivery hands over exactly the OR of what was fed since the watcher became pending, and always comes from the highest priority then pending; nothing else is requested. |
| `PendingQueues.Queues.Pop` | libev-master/ev.c:3455-3458 | Popping delivers what is due to the watcher and leaves all other obligations. |
| `PendingQueues.FedBetweenDeliveries` | libev-master/ev.c:2022-2040 | In any such trace a watcher is fed between any two of its deliveries: once per time it becomes pending. |
| `PendingQueues.FeedIsSettled` | libev-master/ev.c:3444-3462 | When a watcher ends up idle, each of its feeds was followed by a delivery or a clear. |
| `PendingQueues.DrainPop` | libev-master/ev.c:3449-3458 | Popping the newest slot of the highest nonempty queue is the head of the drained order. |
| `PendingQueues.Queues.FeedReverseDone` | libev-master/ev.c:2043-2055 | Reverse feeding adds the watchers, last first, to their queues. |
| `PendingQueues.DoubleReversal` | libev-master/ev.c:2043-2055 | Feeding back to front and popping newest first calls back front to back. |
| `PendingQueues.DrainsInOrder` | libev-master/ev.c:3444-3462 | Draining after such a feed, onto queues that hold other watchers, delivers each fed watcher once, higher priorities first, equal ones in the order of their deadlines, and before whatever else was pending at that priority. |
| `TimerHeap.HParent` | libev-master/ev.c:2303 | `HPARENT` with the truncation of C: the root is its own parent, every other parent is smaller. |
| `TimerHeap.UpHeap` | libev-master/ev.c:2394-2417 | Shifting entries into a hole equals repeated exchange with the parent, in place, and keeps every back-index. |
| `TimerHeap.DownHeap` | libev-master/ev.c:2308-2351 | The same downwards, with the fast and the slow choice of the least child. |
| `TimerHeap.AdjustHeap` | libev-master/ev.c:2424-2430 | `adjustheap` moves an entry up or down as its key demands. |
| `TimerHeap.UpOrders` | libev-master/ev.c:2394-2417 | A heap that is in order but for one entry and its parent is in order after sifting that entry up. |
| `TimerHeap.DownOrders` | libev-master/ev.c:2308-2351 | The same for sifting down. |
| `TimerHeap.AdjustOrders` | libev-master/ev.c:2424-2430 | Whatever entry replaces one of an ordered heap, `adjustheap` restores the order. |
| `TimerHeap.RootIsLeast` | libev-master/ev.c:3258-3270 | The heap order makes the root the least of all entries. |
| `TimerHeap.UpRearranges` | libev-master/ev.c:2394-2417 | Sifting up only rearranges the entries of the heap. |
| `TimerHeap.DownRearranges` | libev-master/ev.c:2308-2351 | Sifting down only rearranges the entries of the heap. |
| `TimerHeap.ReheapedIsHeap` | libev-master/ev.c:2434-2442 | Sifting up entry after entry turns any array into a heap of the same entries. |
| `TimerHeap.Reheap` | libev-master/ev.c:2434-2442 | `reheap` does that in place and sets every back-index. |
| `TimerHeap.HeapAdd` | libev-master/ev.c:4087-4092 | Adding a watcher at the end keeps the heap: order, cached deadlines, back-indices, and the set of watchers plus the new one. |
| `TimerHeap.HeapDrop` | libev-master/ev.c:4113-4119 | Moving the last entry into the place of a removed one keeps the heap, at any place. |
| `TimerHeap.HeapRekey` | libev-master/ev.c:4141-4143 | Changing one deadline and adjusting keeps the heap. |
| `Timers.TimerLoop.TimerStart` | libev-master/ev.c:4076-4096 | A timer becomes armed at its relative deadline plus the current time; the heap invariant and the count of active watchers hold; starting an active timer does nothing. |
| `Timers.TimerLoop.TimerStop` | libev-master/ev.c:4100-4127 | The timer is disarmed from any heap position, its deadline made relative again, its pending event cleared. |
| `Timers.TimerLoop.TimerAgain` | libev-master/ev.c:4130-4155 | Restarts, arms or stops by the repeat value, as documented. |
| `Timers.TimerLoop.Run` | libev-master/ev.c:4076-4155 | Over any sequence of starts, stops, restarts and expiries (libev-master/ev.c:3492-3529), with the clock moving between them, the heap is a heap of exactly the timers that a plain set of armed timers would hold, with the same deadlines. |
| `Timers.TimerLoop.NoDrift` | libev-master/ev.c:3505-3515 | Repeating timers do not drift: if the clock steps come in time, a timer that has fired k times is due at its first deadline plus k times its repeat value. |
| `Timers.TimerLoop.TimersReify` | libev-master/ev.c:3492-3529 | Terminates; exactly the armed timers with a deadline before now fire, each once, earliest first; repeating ones stay armed and are due one repeat after the old deadline, or at once if that is past, others are stopped; none is overdue afterwards; what is fed and cleared is stated as a trace. |
| `Timers.TimerLoop.Expire` | libev-master/ev.c:3501-3523 | One iteration takes the earliest timer. |
| `Timers.TimerLoop.ExpireAndInvoke` | libev-master/ev.c:3853-3876 | Whatever else is pending, if no overdue timer is and callbacks feed nothing: every overdue timer is called back once with the timer bit, by priority and then by old deadline, before the events that were pending earlier at its priority. |
| `PeriodicTimes.EvFloor` | libev-master/ev.c:1592-1623 | The replacement for `floor` equals the mathematical floor for every real argument, and its recursion ends. |
| `PeriodicTimes.NextDeadline` | libev-master/ev.c:3535-3557 | For every positive interval the search ends with now < at <= now + interval, at the first point beyond now of the grid through its start point. |
| `PeriodicTimes.RecalculatedOnGrid` | libev-master/ev.c:3537-3538 | That deadline is the first `offset + n * interval` beyond now, as documented, if and only if the start point lies a whole number of intervals from the offset. |
| `PeriodicTimes.LongIntervals` | libev-master/ev.c:482 | Which it does for every interval of at least MIN_INTERVAL. |
| `PeriodicTimes.ShortIntervalMisses` | libev-master/ev.c:3537-3538 | A concrete shorter interval and time for which the documented grid is missed. |
| `Periodics.PeriodicLoop.PeriodicStart` | libev-master/ev.c:4165-4191 | A periodic becomes armed at the time its callback gives, at the next point of its grid, or at its offset. |
| `Periodics.DeadlinesAreAsDocumented` | libev-master/ev.c:4165-4180 | The deadline that a periodic gets is the callback's answer, or the first `offset + n * interval` beyond now for every interval of at least MIN_INTERVAL, or stays as it was. |
| `Periodics.PeriodicLoop.PeriodicStop` | libev-master/ev.c:4195-4222 | Disarms a periodic from any heap position and clears its pending event. |
| `Periodics.PeriodicLoop.PeriodicAgain` | libev-master/ev.c:4226-4231 | Stopping and starting leaves the periodic armed at a new deadline and not pending. |
| `Periodics.PeriodicLoop.PeriodicsReify` | libev-master/ev.c:3561-3599 | Given reschedule callbacks that do not return past times: terminates, exactly the overdue periodics come due, each once and earliest first, and none is overdue afterwards. |
| `Periodics.PeriodicLoop.PeriodicsReschedule` | libev-master/ev.c:3604-3622 | After a time jump every deadline is computed anew and the rebuilt heap holds the same periodics. |
| `Growth.NextSize` | libev-master/ev.c:1949-1968 | The result is at least cnt and at least 2*cur+2: the least sufficient doubling, or, for large arrays, a size that fills whole pages less the allocator overhead. |
| `Growth.NeedSize` | libev-master/ev.c:1988-1995 | Growing keeps the old elements and does nothing when there is room. |
| `Growth.AppendAll` | libev-master/ev.c:1971-1995 | n one-element appends keep everything appended before and move fewer than 2n elements in all. |
| `Growth.Growing.Append` | libev-master/ev.c:2043-2047 | One append: contents plus the element; a full array moves its elements once. |
| `FdInterest.Fds.FdChange` | libev-master/ev.c:2175-2187 | `fdchanges` holds exactly the fds with nonzero `reify`, each once. |
| `FdInterest.Fds.IoStart` | libev-master/ev.c:4031-4054 | Puts the watcher in front of the list of its fd, marks the fd, and keeps the table invariant; an active watcher is left alone. |
| `FdInterest.Fds.IoStop` | libev-master/ev.c:4057-4073 | Takes the watcher off its list, keeps the order of the others, clears its pending event and marks the fd. |
| `FdInterest.WlistDel` | libev-master/ev.c:3955-3967 | Removes the first occurrence and keeps the rest in order. |
| `FdInterest.Fds.FdKill` | libev-master/ev.c:2191-2200 | Stops every watcher of the fd and leaves each pending with error, read and write. |
| `FdInterest.Fds.FdEventNocheck` | libev-master/ev.c:2074-2088 | Feeds each watcher of the fd exactly the bits it asks for, if any. |
| `FdInterest.Fds.FdEvent` | libev-master/ev.c:2093-2099 | Feeds nothing for an fd that awaits `fd_reify`. |
| `FdInterest.Fds.ReifyNext` | libev-master/ev.c:2143-2166 | One step of `fd_reify`: the events become the OR of the watchers, and the backend has to be told if they changed or the fd was set anew. |
| `FdInterest.Fds.EndReify` | libev-master/ev.c:2143-2169 | When all changes have been looked at, the events of every fd are the OR of its watchers. |
| `FdInterest.Fds.FdRearmAll` | libev-master/ev.c:2253-2264 | Every fd with events is forgotten and marked; the others are untouched. |
| `FdInterest.FeedsExpected` | libev-master/ev.c:2074-2088 | What is due to each watcher after its fd has been reported. |
| `FdInterest.KillExpected` | libev-master/ev.c:2191-2200 | What is due to each watcher after its fd has been killed. |
| `FdInterest.WantedBySome` | libev-master/ev.c:2157-2158 | The OR contains a bit only if some watcher asks for it. |
| `Readiness.TellMore` | libev-master/ev.c:2093-2099 | Reporting one more fd changes what is due to its watchers and to no others. |
| `Readiness.PendingAfterPoll` | libev-master/ev.c:2073-2099 | For every backend alike: which watchers are pending after a poll, and with which bits, is a function of the table of fds, of the fds reported and of their readiness alone. |
| `Readiness.FdEbadf` | libev-master/ev.c:2220-2228 | Exactly the closed fds with events are killed. |
| `PollBackend.Poll.PollModify` | libev-master/ev_poll.c:53-89 | `polls` asks for exactly the new events of the fd and unchanged ones of all others; `polls` and `pollidxs` stay mutually inverse through allocation and swap-delete. |
| `PollBackend.FdReify` | libev-master/ev.c:2113-2170 | With poll_modify for backend_modify: poll is asked, for every fd, for the OR of what its watchers ask for. |
| `PollBackend.PollPoll` | libev-master/ev_poll.c:92-131 | Stops after as many reports as poll(2) announced, within bounds, as the assertion in the source says, having reported exactly the readiness of the fds with events; closed fds are killed. |
| `PollBackend.InterestIsSame` | libev-master/ev_poll.c:53-89 | The pollfds are one for each fd with events, and ask for its events. |
| `PollBackend.TheRest` | libev-master/ev_poll.c:110-130 | The entries that the loop does not get to have nothing to report. |
| `PollBackend.Run` | libev-master/ev.c:2112-2200 | Over any sequence of settings, starts, stops, kills, polls and reifications of fds, what poll is asked for agrees with the table, and after a final `fd_reify` both are the OR of the listed watchers, with every active watcher listed. |
| `SelectBackend.Select.SelectModify` | libev-master/ev_select.c:71-139 | The bit vectors represent the new events of the fd and unchanged ones of all others, growing as needed. |
| `SelectBackend.Run` | libev-master/ev.c:2112-2200 | Over any sequence of settings, starts, stops, resets, kills, polls and reifications the bit vectors agree with the table, and after a final `fd_reify` both are the OR of the listed watchers, with every active watcher listed. |
| `SelectBackend.FdReify` | libev-master/ev.c:2113-2170 | With select_modify for backend_modify: the bit vectors represent, for every fd, the OR of what its watchers ask for. |
| `SelectBackend.SelectPoll` | libev-master/ev_select.c:142-280 | The scan by words and bits reports exactly the readiness of the fds with events; with EBADF the closed fds are killed and nothing is reported. |
| `SelectBackend.ScanWord` | libev-master/ev_select.c:264-275 | The scan of one word reports the fds of that word. |
| `SelectBackend.EmptyWord` | libev-master/ev_select.c:264 | A word that is skipped has nothing to report about any of its 64 fds. |
| `EpollBackend.EpollModify` | libev-master/ev_epoll.c:71-139 | With events and an fd that can be polled, the kernel ends up with exactly those events under the current generation, whatever deletions were ignored; a refused fd is listed; a closed one is killed, its watchers are due an error and its generation is taken back; a changed entry has another generation than before, so that older events are stale; the mirror invariant is kept. |
| `EpollBackend.Submit` | libev-master/ev_epoll.c:96-131 | The fallbacks between ADD and MOD end with the new entry, or with an old one that asks for the same, in two system calls at most, and in one where the kernel's table is as libev last left it and a change is wanted. |
| `EpollBackend.FdReify` | libev-master/ev.c:2113-2170 | With epoll_modify for backend_modify, which may kill fds and lengthen the list being worked on: terminates; for every fd that was not closed behind the loop, or was set anew since, the kernel or the list of refused fds ends up with the OR of what its watchers ask for; exactly the closed fds that the kernel had to be told of lose their watchers, which are due an error, and nothing changes for other watchers. |
| `EpollBackend.Run` | libev-master/ev_epoll.c:43-139 | Over any sequence of settings, starts, stops, resets, kills, polls with any events, reifications, forks, and fds closed and reopened so that their kernel entries vanish: the mirror holds throughout, and after a final `fd_reify` every fd is registered with what is wanted, unless it was reopened and its watchers not set anew. |
| `EpollBackend.EpollFork` | libev-master/ev_epoll.c:272-285 | A new empty table and every fd with events marked. |
| `EpollBackend.Rebuild` | libev-master/ev_epoll.c:272-285 | `epoll_fork` and the next `fd_reify` register the whole wanted set anew. |
| `EpollBackend.EpollOne` | libev-master/ev_epoll.c:164-207 | The exact effect of one event: a stale one is not reported and asks for the kernel state to be recreated; one with unwanted bits corrects the kernel entry and is reported, or, failing that, asks for the same; any other is reported. |
| `EpollBackend.EpollPoll` | libev-master/ev_epoll.c:142-235 | For any batch of events whatsoever, the exact effect on the bits due to every watcher, on the kernel entries, on the masks and on the list of refused fds, event by event and refused fd by refused fd; the mirror is kept. |
| `EpollBackend.EpollPollReady` | libev-master/ev_epoll.c:142-235 | For a batch of kernel flags that shows the readiness of the entries, on a table in which every wanted fd is known: exactly the readiness of the open fds with events is told, by the predicate that poll and select are proved against. |
| `EpollBackend.EventsTell` | libev-master/ev_epoll.c:159-207 | What such a batch makes due to a watcher of a registered fd, whatever other bits the events carry. |
| `EpollBackend.DropEperm` | libev-master/ev_epoll.c:222-234 | Removing a listed fd by moving the last one keeps every refused fd listed. |
| `Blocking.BlockingTime` | libev-master/ev.c:3775-3832 | Sleep plus poll timeout is the larger of backend_mintime, timeout_blocktime and the least of 59.743 and the times left to all armed timers and periodics; the poll timeout alone is at least backend_mintime; the sleep is the longest that io_blocktime and backend_mintime allow; both are zero when the loop may not block. |
| `Once.EvOnce.OnceCb` | libev-master/ev.c:5206-5218 | Stops both watchers, frees the structure and calls back. |
| `Once.EvOnce.OnceCbOf` | libev-master/ev.c:5222-5235 | The bits of the other watcher, pending at the same time, are added. |
| `Once.EvOnce.Invoke` | libev-master/ev.c:5222-5235 | The user is called back if and only if the next slot is that of one of the two watchers, once, with the OR of what both were due. |
| `Once.EvOnce.Run` | libev-master/ev.c:5206-5266 | Over any run of readiness, time, `fd_reify`, killed fds, callbacks, and operations on all other watchers the user callback is called at most once, and from then on neither watcher is active or pending. |
| `Once.EvOnce.Unreferenced` | libev-master/ev.c:5206-5218 | By then no heap entry, fd list or pending slot refers to either watcher. |
| `EventLoop.StartWatcher` | libev-master/ev.c:3999-4018 | Starting clips the priority into the supported range and sets the index. |

## Left out

- MpmcRing.ExactlyOnceInOrder: needs a loss-free run, and does not hold without; a capacity of zero is not modelled; positions are unbounded integers, so the wrap-around of size_t after 2^64 operations is not modelled.
- Growth.NextSize: works on unbounded integers, so overflow of int for huge arrays is not modelled.
- PeriodicTimes.EvFloor: works on reals, so rounding and the early return for very large floating-point numbers are not modelled; the same goes for the `nat == at` escape of periodic_recalc.
- PendingQueues.Queues.InvokePending: callbacks feed and clear events of known watchers and do nothing else; a finite total of requests is given beforehand, because with endless feeding the source does not terminate either.
- Once.EvOnce.Run: the rest of the program has no access to these two watchers; failure of the allocation is not modelled.
- SelectBackend.SelectPoll: a word is a set of bit positions instead of a machine word; an error and a hang-up are one condition, which makes an fd readable and writable, for poll as for select.
- EpollBackend.EpollPoll: failures of epoll_wait, the zero timeout while refused fds are listed and the growth of the array of received events are not modelled; that what is known stays known is stated for batches whose fresh events are of fds that can be polled.
- EpollBackend.EpollPollReady: from a table in which every wanted fd is known, since an fd that was reopened and not set anew is not polled at all.
- WakeUp.EverySendIsDelivered: with no sender inside a call; with senders at work see WakeUp.SendIsDeliveredMeanwhile.
- EpollBackend.EpollModify: the errors are those of entries present or absent and of closed or refused fds, not a lack of kernel memory; entries that outlive their fd because the file was duplicated appear only as stale events.
- FdInterest.WlistDel: the intrusive `next` pointers are a sequence per fd, so aliasing between lists is not modelled.
- PollBackend.FdReify: one fd_reify per backend in place of the call through a function pointer; the Windows handle variant is not modelled.
- Timers.TimerLoop.ExpireAndInvoke: an overdue timer that is pending already keeps its slot and its place there, so nothing is said of the order then; the source does the same.
- The loop structure is split into one class for each part; fields that no modelled function looks at are dropped.
- fd_enomem and the other answers to failing backend calls, except EBADF.
- Weak memory: atomic accesses interleave sequentially and fences do nothing.
- System calls, their error codes other than the ones above, creation of the pipe or eventfd, signal handlers, waiting for children and inotify.
- Child watchers, whose priority is rewritten just before they are fed.
- time_update and its guess at clock jumps: the current time is an input.
- The destructors, moves and size estimates of the queues, and reclamation of memory.
- kqueue, event ports, Windows and fd_set variants of the backends, the C++ wrapper and the libevent emulation: thin layers or copies.
- ev_signal, ev_stat, ev_idle, ev_prepare, ev_check, ev_embed, ev_fork and ev_cleanup watchers: their bookkeeping is an array append or one of the lists above.
- The programs under the example directories other than the three queues.
