# Verified model of the FreeRTOS kernel in `lib/FreeRTOS`, and of two small cores beside it

The firmware runs on the FreeRTOS V10.2.1 kernel vendored under `lib/FreeRTOS`. The kernel is a
handful of state machines over shared linked lists and ring buffers, driven by 32-bit counters
that wrap. This project models those machines in Dafny and proves what they keep over whole
runs; each 32-bit tick is related to a ghost tick count that never wraps.

| file | what it models |
|---|---|
| `Words.dfy` | 32-bit words, bytes, and the place that a sorted insertion looks for |
| `Rings.dfy` | the value of a kernel list: its items and the moving index; round-robin fairness |
| `IntrusiveList.dfy` | `list.c` on the heap: nodes, pointers, the end marker; any number of lists side by side |
| `Clocks.dfy` | absolute time: what ticks, suspension and resumption do to sleeping tasks |
| `Ranks.dfy` | how inheritance changes the priority of one task |
| `KernelLists.dfy`, `KernelSteps.dfy`, `Kernels.dfy` | `tasks.c`: TCBs, all task lists, delayed lists, scheduler suspension, selection |
| `KernelRuns.dfy` | runs of kernel calls: round robin, and waking by priority |
| `Deadlines.dfy` | time-outs and periodic delays in 32-bit ticks |
| `QueueRing.dfy` | the byte ring of a queue |
| `QueueLocks.dfy` | blocking on queues, interrupts and the lock counts |
| `Mutexes.dfy` | mutexes, recursive mutexes, priority inheritance |
| `Timers.dfy` | the timer daemon |
| `StreamBuffer.dfy`, `MessageBuffer.dfy` | stream and message buffers, one writer and one reader |
| `EventGroups.dfy` | event groups |
| `Printer.dfy` | the integer printer and digit parser of `lib/printf/printf.c` |
| `Reblock.dfy` | copying packets into and out of DMA buffers in `core/src/hw/ethernetif.c` |

Code that updates state in place is a class whose methods follow the code's branches and are
proved against a step function or an abstract value; laws over all runs are lemmas about those
step functions. What a kernel call does to the lists is stated as a sequence of list operations
(`Moved`), which leaves every other list and index as it was. A critical section, and a section with the scheduler suspended, is one atomic
step; where interrupts can run inside the latter (a locked queue) or between two index updates
(a message buffer) the section is split there. An interrupt or another task may come between
any two steps. The condition of a `configASSERT` is a precondition of the method, or is proved,
or is a result of it.

Configuration: preemption on, 32-bit ticks, 7 priorities, time slicing on, mutexes and recursive
mutexes on, `INCLUDE_vTaskSuspend` 1, no queue sets, no tickless idle. `vTaskDelayUntil`
(`INCLUDE_vTaskDelayUntil` 0) and the timers (`configUSE_TIMERS` is not set and defaults to 0)
are compiled out in this configuration; they are modelled as they are written. Ready tasks are selected
by the generic code of `tasks.c:123-148`. `list.h` and the port macros are not part of this
model: `listGET_OWNER_OF_NEXT_ENTRY` is taken to advance the index by one item and to skip the
end marker, and list items are 32-bit values.

Where the code does less than its interface suggests, the exact condition is proved:

- `xTaskCheckForTimeOut` misses an expiry after two wraps of the tick count in some cases
  (`Deadlines.CheckIsExact`, `Deadlines.BlindExample`).
- `xQueueOverwrite` on a full queue whose items have no data counts one item too many, because
  `prvCopyDataToQueue` looks at the item size before the position (`QueueRing.Queue.Send`,
  `QueueRing.OverwrittenTwice`).
- The 8-bit lock counts can lose wake-ups from the 128th interrupt of one lock period on. The
  exact condition is on the numbers of posts, waiting and woken tasks
  (`QueueLocks.LockCountReaches127`, `QueueLocks.RxLockCountReaches127`); one waiting task is
  enough (`QueueLocks.OneReceiverStranded`, `QueueLocks.OneSenderStranded`).
- `xQueueReset` wakes one task that waits to send, however much space it makes
  (`QueueLocks.ResetKeeps`, `QueueLocks.ResetStrandsASender`).
- Priority inheritance goes one mutex far. A holder stays at least as high as its waiters just as
  long as each step meets a condition on the state before it: a task blocks only if nobody for
  whom the holder waits is below it (`Mutexes.BlockKeepsTheBound`), a task takes a mutex only if
  it is as high as those still waiting for it, and after a time-out no other waiter is above both
  the first one and the base priority of the holder (`Mutexes.StepKeepsTheBound`,
  `Mutexes.BoundedExactlyWhenFitting`; a run that fails: `Mutexes.NestingBreaksTheBound`). That
  tasks run by priority and block only while they hold no mutex is enough
  (`Mutexes.BoundedInversion`).
- The assertion in `xStreamBufferNextMessageLengthBytes` fails when the reader calls it between
  the two writes of the first message (`MessageBuffer.Messages.NextMessageLength`,
  `MessageBuffer.AskedBetweenTheWrites`).
- A read of a message into a receive buffer that is too short puts the length back by moving the
  tail. A writer that comes in between may have used that space, and messages are then lost
  (`MessageBuffer.Messages.Restore`, `MessageBuffer.RejectedReadLoses`).
- A negative number whose digits are padded to 32 characters loses its sign
  (`Printer.PrintThenReadSigned`, `Printer.SignLost`).
- A printed number with spaces in front is not parsed back (`Printer.PrintThenParse`,
  `Printer.SpaceStopsTheParser`).

`dafny verify dfyconfig.toml` checks the whole project.

## Model

| member | source | states |
|---|---|---|
| Rings.RemoveTurn | lib/FreeRTOS/list.c:170-196 | removing an item from a list takes it out of the turn and leaves the order of the others, wherever the index rests |
| Rings.InsertEndTurn | lib/FreeRTOS/list.c:74-100 | an item added at the end comes after all present ones in the turn, except the one the index has just moved onto |
| Rings.NextTurn | lib/FreeRTOS/tasks.c:144-146 | advancing the index selects the head of the turn and sends it to the back |
| Rings.PickedOnceWhileWaiting | lib/FreeRTOS/tasks.c:133-148 | while an item waits for its turn, another one that stays in the list is selected once if it was in front and is no longer, else never |
| Rings.AddsTurn | lib/FreeRTOS/list.c:74-100 | items added one after the other come in this order after every present one but the one selected last |
| Rings.RoundRobinIsFair | lib/FreeRTOS/tasks.c:133-148 | between two selections of an item every other item that stays in the list is selected exactly once, whatever is added and removed in between |
| IntrusiveList.List.constructor | lib/FreeRTOS/list.c:37-59 | an initialised list is empty, its end marker linked to itself and holding the largest value |
| IntrusiveList.List.InsertEnd | lib/FreeRTOS/list.c:74-100 | on the heap: the circle stays linked both ways, the container and the count are updated, and the sequence gains the item in front of the indexed node |
| IntrusiveList.List.Insert | lib/FreeRTOS/list.c:103-167 | on the heap: the same for the sorted insertion, at the place in front of the first larger value |
| IntrusiveList.List.FindPosition | lib/FreeRTOS/list.c:114-155 | the search loop ends at that place because of the end marker; a value equal to portMAX_DELAY goes to the back without a search |
| IntrusiveList.InsertKeepsSorted | lib/FreeRTOS/list.c:103-167 | the insertion keeps a sorted list sorted and puts the item behind every equal value |
| IntrusiveList.List.Bypass | lib/FreeRTOS/list.c:174-177 | the two pointer writes of a removal leave a circle that passes by the item |
| IntrusiveList.List.NextEntry | lib/FreeRTOS/tasks.c:144-146 | the index moves one item on, past the end marker, to the head of the turn |
| IntrusiveList.Pool.NewList | lib/FreeRTOS/list.c:37-59 | a further list is empty, its end marker nobody's item, and the others are not touched |
| IntrusiveList.Pool.InsertEnd | lib/FreeRTOS/list.c:74-100 | among any number of lists and items: an item names a list as its container if and only if it is in it, before and after, and no other list changes |
| IntrusiveList.Pool.Insert | lib/FreeRTOS/list.c:103-167 | the same for the sorted insertion |
| IntrusiveList.Pool.SetValue | lib/FreeRTOS/tasks.c:3971 | a new value of an item, in a list or in none, leaves every list as it was |
| IntrusiveList.Pool.Remove | lib/FreeRTOS/list.c:170-196 | the container alone says which list an item leaves; it then names none, an index resting on it steps back, the result is the new length, and no other list changes |
| Clocks.ExactWakeUp | lib/FreeRTOS/tasks.c:2665-2774 | over any run of ticks, suspensions, resumptions, calls on other tasks and changes of its own priority, and any number of tick wraps: a sleeper goes on sleeping, with the event it waits for, before its wake tick and is ready, waiting for nothing, from that tick on; its priority is the one last set |
| Clocks.BlockedFor | lib/FreeRTOS/tasks.c:5081-5151 | a task that blocks at tick N for d ticks is blocked until tick N + d and ready from then on, whatever becomes of its priority |
| Clocks.StaysRunnable | lib/FreeRTOS/tasks.c:2947-3017 | a task that can run, such as the idle task, can run after any calls that do not block, suspend or delete it: the selection loop always finds one |
| Clocks.TicksConserved | lib/FreeRTOS/tasks.c:2100-2281 | tick count plus pended ticks advances by exactly one per tick interrupt in every run |
| Clocks.DepthIsConserved | lib/FreeRTOS/tasks.c:2100-2281 | in every run that resumes no more often than it suspends, the depth is what was suspended and not yet resumed |
| Clocks.SuspendedAndResumed | lib/FreeRTOS/tasks.c:2100-2281 | a running scheduler that is suspended and resumed equally often runs again, no tick held back and none lost |
| Clocks.HeldBack | lib/FreeRTOS/tasks.c:2807-2814 | until the last resumption the time stands still and each tick is counted as pended |
| Clocks.ResumeDeliversEachTick | lib/FreeRTOS/tasks.c:2174-2281 | the outermost resume equals draining the pending-ready list and then delivering each pended tick on its own |
| Ranks.TakeAndGive | lib/FreeRTOS/tasks.c:4038-4111 | taking a mutex, inheriting any number of times and giving it back restores the rank |
| Ranks.SetBaseThenGive | lib/FreeRTOS/tasks.c:1532-1689 | a new base priority takes effect at once, or under an inherited priority with the give of the last mutex |
| KernelLists.Rehome | lib/FreeRTOS/tasks.c:2736-2752 | a task leaves its state list and its event list and goes to the end of the target list; containers and lists keep agreeing, other lists lose at most that task |
| KernelLists.LinkSorted | lib/FreeRTOS/list.c:103-167 | sorted insertion into a kernel list keeps containers and lists in agreement, and a list sorted by wake time sorted |
| KernelLists.Resort | lib/FreeRTOS/tasks.c:5097-5137 | moving a task to another list by a new item value keeps that list sorted |
| KernelLists.ListsCount | lib/FreeRTOS/tasks.c:3546-3575 | the lengths of any different state lists add up to the number of tasks they hold |
| KernelSteps.UnblockExpired | lib/FreeRTOS/tasks.c:2698-2774 | the loop over the delayed list wakes exactly the tasks due, ends with every remaining item later than now and the next unblock time no later than the head, and asks for a switch just when some woken task is at least as high as the running one |
| KernelSteps.DrainPending | lib/FreeRTOS/tasks.c:2198-2226 | the loop over the pending-ready list empties it, waking exactly its tasks, sets the next unblock time to the head of the delayed list, and asks for a yield just when one of them is at least as high as the running task |
| KernelSteps.WrapSwitches | lib/FreeRTOS/tasks.c:198-210 | when the tick count wraps the current delayed list is empty, and exchanging the lists changes no task's absolute wake time |
| KernelSteps.NothingDue | lib/FreeRTOS/tasks.c:2694-2698 | before the next unblock time no task is due: skipping the delayed list is right |
| KernelSteps.NextWakeTime | lib/FreeRTOS/tasks.c:3880-3901 | the next unblock time is the wake time at the head of the current delayed list, which none on that list is below, or the largest value if it is empty |
| KernelSteps.FallAsleep | lib/FreeRTOS/tasks.c:5117-5150 | wake times that wrap go to the overflow list, others to the current one, and in both cases mean now + ticks in absolute time |
| KernelSteps.Park | lib/FreeRTOS/tasks.c:5108-5116 | an unlimited wait goes to the suspended list |
| KernelSteps.SelectHighest | lib/FreeRTOS/tasks.c:133-142 | the selection loop ends at the highest non-empty ready list if any task is ready |
| KernelSteps.WakeHead | lib/FreeRTOS/tasks.c:3111-3140 | the first waiter leaves the event list and becomes ready, or is held pending while the scheduler is suspended |
| KernelSteps.Rethread | lib/FreeRTOS/tasks.c:3980-3999 | a change of rank moves a ready task to the end of the ready list of its new priority and nothing else |
| KernelSteps.ListsPartitionTasks | lib/FreeRTOS/tasks.c:1072-1226 | every task is on exactly one state list and the lengths of all state lists sum to the number of tasks |
| KernelSteps.NoneAboveTop | lib/FreeRTOS/tasks.c:123-148 | no ready list above uxTopReadyPriority has an item |
| KernelSteps.WakesAtReady | lib/FreeRTOS/tasks.c:2736-2752 | waking tasks, each ready list gains those of its priority at its end in the order of waking, its index staying where it is |
| KernelSteps.PreemptedIs | lib/FreeRTOS/tasks.c:2754-2771 | a tick asks for a switch just when a task that becomes due is at least as high as the running one |
| KernelSteps.HeadTimeIsLeast | lib/FreeRTOS/tasks.c:3880-3901 | the next unblock time is the least wake time of this round of the tick count, or the largest value |
| Kernels.Kernel.constructor | lib/FreeRTOS/tasks.c:1967-2086 | as the scheduler starts: the invariant holds, with the idle task alone ready at tick 0 |
| Kernels.Kernel.SwitchDelayedLists | lib/FreeRTOS/tasks.c:198-210 | the assertion that the current list is empty holds, and the exchange of the lists is one wrap of time |
| Kernels.Kernel.IncrementTick | lib/FreeRTOS/tasks.c:2665-2834 | one tick: absolute time and tasks change as the abstract clock does; the tasks due go, in the order of their wake times, from their lists to the ends of their ready lists, and no other list, index or TCB changes; the exact condition for a switch |
| Kernels.Kernel.SuspendScheduler | lib/FreeRTOS/tasks.c:2100-2108 | the nesting depth grows by one, and nothing else changes |
| Kernels.Kernel.ResumeScheduler | lib/FreeRTOS/tasks.c:2174-2281 | the depth falls by one; the outermost resume makes the pending tasks ready in their order and then those that the pended ticks wake in the order of their wake times, exactly; it then yields exactly if a yield was pending, a task so woken is at least as high as the running one, or a tick was delivered while another task shares its priority |
| Kernels.Kernel.AddCurrentToDelayedList | lib/FreeRTOS/tasks.c:5081-5151 | the running task sleeps until now + ticks in absolute time, or for ever: it leaves its ready list for its place on one other list, and nothing else changes |
| Kernels.Kernel.PlaceOnEventList | lib/FreeRTOS/tasks.c:3020-3034 | the running task sleeps and waits on the event list, in front of the first waiter with a larger item value |
| Kernels.Kernel.RemoveFromEventList | lib/FreeRTOS/tasks.c:3094-3159 | the head waiter is woken, or held pending; the result and the pending yield say whether it outranks the running task |
| Kernels.Kernel.Suspend | lib/FreeRTOS/tasks.c:1696-1790 | the task leaves every other list for the suspended list, and the next unblock time is that of the head of the delayed list; whether a yield follows, and whether its assertion holds |
| Kernels.Kernel.Resume | lib/FreeRTOS/tasks.c:1843-1889 | only a task that is suspended, and not blocked without a time-out, is made ready; the switch condition |
| Kernels.Kernel.ResumeFromISR | lib/FreeRTOS/tasks.c:1897-1962 | the same from an interrupt, held pending while the scheduler is suspended |
| Kernels.Kernel.SwitchContext | lib/FreeRTOS/tasks.c:2947-3017 | the idle task being able to run: while the scheduler is suspended only a pending yield is noted; else the running task is the head of the turn of the highest non-empty ready list, and no ready task is higher |
| Kernels.Kernel.AddNewTask | lib/FreeRTOS/tasks.c:1072-1152 | a new task is ready at the end of its ready list and counted; the switch condition |
| Kernels.Kernel.Delete | lib/FreeRTOS/tasks.c:1157-1242 | a task that deletes itself awaits termination and stays counted, any other leaves the system at once; whether a yield follows, and whether its assertion holds |
| Kernels.Kernel.CleanUp | lib/FreeRTOS/tasks.c:3578-3604 | the loop removes exactly the tasks that have deleted themselves, with both counters |
| Kernels.Kernel.SetPriority | lib/FreeRTOS/tasks.c:1532-1689 | the base becomes the new priority, and so does the effective one unless it is inherited; a ready task goes to the end of its new ready list; the exact switch condition |
| Kernels.Kernel.PriorityInherit | lib/FreeRTOS/tasks.c:3951-4031 | the holder's priority becomes the maximum of its own and the running task's, in the ready list too; the result says whether inheritance is in force |
| Kernels.Kernel.PriorityDisinherit | lib/FreeRTOS/tasks.c:4038-4111 | one mutex fewer, the base priority unchanged, and with the last mutex the priority back at the base; the task then goes to the end of that ready list; the result says whether the priority fell |
| Kernels.Kernel.PriorityDisinheritAfterTimeout | lib/FreeRTOS/tasks.c:4118-4213 | a holder of one mutex falls to the maximum of its base and the highest waiter, a holder of several does not change |
| Kernels.Kernel.Partition | lib/FreeRTOS/tasks.c:123-222 | after any call: one state list per task, the ready list of its own priority if any, lengths summing to the number of tasks, none ready above the top, none pending while the scheduler runs |
| KernelRuns.KernelRoundRobin | lib/FreeRTOS/tasks.c:2947-3017 | in every run of kernel calls: between two turns of a task every other task of its priority that stays ready is made the running task exactly once, whatever ticks, wake-ups, blocking and changes of priority there are in between |
| KernelRuns.NobodyTurns | lib/FreeRTOS/tasks.c:133-148 | what the other calls do to the lists moves no index |
| KernelRuns.JoinsByPriority | lib/FreeRTOS/tasks.c:3020-3034 | while item values match priorities, a task queues behind every waiter at least as high and in front of all others |
| KernelRuns.WokenIsHighest | lib/FreeRTOS/tasks.c:3094-3159 | then the waiter that an event wakes is of the highest priority, and the others stay in order |
| KernelRuns.NewTaskValued | lib/FreeRTOS/tasks.c:928-946 | a new task starts with its priority as base, no mutex, and the item value of its priority |
| Deadlines.Timeout.constructor | lib/FreeRTOS/tasks.c:3196-3205 | a time-out is armed with the tick count and the number of overflows |
| Deadlines.Timeout.Check | lib/FreeRTOS/tasks.c:3216-3276 | the call computes the specified result and remaining wait |
| Deadlines.CheckIsExact | lib/FreeRTOS/tasks.c:3251-3271 | a check reports a time-out exactly at and after the deadline, if and only if it is not made after a whole round of the tick count that the two tests cannot see |
| Deadlines.BlindExample | lib/FreeRTOS/tasks.c:3251-3271 | a concrete pair of wraps after which an expired wait is not reported |
| Deadlines.DeadlineConserved | lib/FreeRTOS/tasks.c:3216-3276 | with at most one wrap between calls, start plus remaining ticks is constant until expiry |
| Deadlines.FirstReportIsTheDeadline | lib/FreeRTOS/tasks.c:3216-3276 | over any sequence of such calls the first report is the first call at or after the deadline set at the start |
| Deadlines.ForeverIsForever | lib/FreeRTOS/tasks.c:3240-3249 | waiting for portMAX_DELAY never times out |
| Deadlines.SleepsATick | lib/FreeRTOS/tasks.c:1249-1307 | neither an unexpired wait nor a delay decided on is of 0 ticks |
| Deadlines.DelayUntilIsPeriodic | lib/FreeRTOS/tasks.c:1249-1307 | vTaskDelayUntil blocks exactly until the previous wake time plus the increment, and not at all if that is past, whatever has wrapped |
| QueueRing.AroundIsModulo | lib/FreeRTOS/queue.c:2099-2103 | the wrap of an offset by comparison is the index modulo the length |
| QueueRing.PushBack | lib/FreeRTOS/queue.c:2096-2108 | writing the slot (read + 1 + count) modulo the length appends an item |
| QueueRing.PushFront | lib/FreeRTOS/queue.c:2109-2141 | writing the read slot and stepping back prepends an item |
| QueueRing.PopFront | lib/FreeRTOS/queue.c:2149-2164 | stepping the read slot on removes the first item |
| QueueRing.Queue.constructor | lib/FreeRTOS/queue.c:255-305 | a new queue is empty with its two offsets as reset leaves them |
| QueueRing.Queue.Reset | lib/FreeRTOS/queue.c:255-305 | a reset queue is empty |
| QueueRing.Queue.CopyDataToQueue | lib/FreeRTOS/queue.c:2070-2146 | send to back, front or overwrite on the contents as a double-ended queue; the invariant survives if and only if this is not an overwrite of a full queue without data |
| QueueRing.Queue.CopyDataFromQueue | lib/FreeRTOS/queue.c:2149-2164 | the first item is copied out and the read offset moves one slot on |
| QueueRing.Queue.Send | lib/FreeRTOS/queue.c:768-876 | sends exactly when there is room or the item overwrites, else changes nothing |
| QueueRing.OverwrittenTwice | lib/FreeRTOS/queue.c:2079-2108 | a concrete queue of length 1 without data that counts 2 after two overwrites |
| QueueRing.Queue.Receive | lib/FreeRTOS/queue.c:1299-1333 | takes the first item, or nothing from an empty queue |
| QueueRing.Queue.Peek | lib/FreeRTOS/queue.c:1659-1699 | returns the first item and changes neither the contents nor the read offset |
| QueueLocks.StepKeeps | lib/FreeRTOS/queue.c:747-1869 | every step of tasks and interrupts keeps the invariant of locks, lists and wake-ups |
| QueueLocks.NoLostWakeUp | lib/FreeRTOS/queue.c:747-1869 | in every interleaving: while tasks wait to receive, the messages are at most the tasks woken and not yet back plus the lock count, the same for free spaces; once those are back, tasks wait to receive only on an empty queue and to send only on one without space; with data in the items the count never exceeds the length |
| QueueLocks.MessagesConserved | lib/FreeRTOS/queue.c:747-1869 | in every run: messages there, taken and thrown away by resets are those there were and those put in, one by one |
| QueueLocks.StepWakes | lib/FreeRTOS/queue.c:747-1869 | a step other than an unlocking wakes at most the first waiter, a receiver by sends and peeks only, a sender by receives and resets only |
| QueueLocks.LockCountReaches127 | lib/FreeRTOS/queue.c:2175-2253 | for any number of waiting and of woken tasks: after interrupts posted k times to a locked queue, the unlocking leaves every message spoken for if and only if nobody waits, at most 127 posts found space, all waiting tasks were woken past a wrapped count, or earlier wake-ups cover the messages |
| QueueLocks.RxLockCountReaches127 | lib/FreeRTOS/queue.c:2175-2283 | the same for interrupts that receive while tasks wait to send |
| QueueLocks.LossesAreReachable | lib/FreeRTOS/queue.c:1366-1392 | runs of tasks that queue up one after the other reach the states of both, for any number of waiting tasks and any length |
| QueueLocks.OneReceiverStranded | lib/FreeRTOS/queue.c:1005-1092 | a run in which one waiting task is left waiting on an unlocked queue with 128 messages |
| QueueLocks.OneSenderStranded | lib/FreeRTOS/queue.c:1806-1866 | a run in which one task is left waiting to send on an empty queue |
| QueueLocks.OverwrittenSemaphore | lib/FreeRTOS/queue.c:2070-2146 | a run that leaves a queue without data above its length |
| QueueLocks.ResetKeeps | lib/FreeRTOS/queue.c:255-305 | a reset of a queue in use keeps the free spaces spoken for if and only if at most one sender waits or the woken ones suffice |
| QueueLocks.ResetStrandsASender | lib/FreeRTOS/queue.c:272-292 | a run in which a reset leaves a task waiting to send on a queue with space |
| QueueLocks.Queue.Reset | lib/FreeRTOS/queue.c:255-305 | a reset is the abstract step: no messages, unlocked, one sender woken |
| QueueLocks.PostedIs | lib/FreeRTOS/queue.c:1005-1092 | the 8-bit count after k posts, for any number of waiting tasks: it wraps to -128 and, back at -1, passes for unlocked, after which each post wakes a task if any is left |
| QueueLocks.Queue.Send | lib/FreeRTOS/queue.c:768-876 | one message more if there is room, or if an overwrite replaces none with data, and the first receiver woken |
| QueueLocks.Queue.Receive | lib/FreeRTOS/queue.c:1299-1333 | one message fewer if there is one, and the first sender woken |
| QueueLocks.Queue.Peek | lib/FreeRTOS/queue.c:1659-1699 | a peek passes the message on to the next receiver |
| QueueLocks.Queue.LockQueue | lib/FreeRTOS/queue.c:240-252 | locking sets both counts from unlocked to unmodified |
| QueueLocks.Queue.MustBlock | lib/FreeRTOS/queue.c:1366-1392 | the task blocks exactly if its time is not up and the queue is still empty, or full |
| QueueLocks.Queue.UnlockTx | lib/FreeRTOS/queue.c:2175-2253 | the first loop of the unlocking wakes as many receivers as were noted, or all there are |
| QueueLocks.Queue.UnlockRx | lib/FreeRTOS/queue.c:2255-2283 | the second loop does the same for senders |
| QueueLocks.Queue.SendFromISR | lib/FreeRTOS/queue.c:988-1101 | an interrupt wakes a receiver of an unlocked queue and leaves a note in a locked one |
| QueueLocks.Queue.ReceiveFromISR | lib/FreeRTOS/queue.c:1806-1866 | the same for senders |
| Mutexes.StepAccounts | lib/FreeRTOS/queue.c:1452-1474 | every step keeps the accounts of held mutexes, holders, counts and priorities, with any nesting |
| Mutexes.MutexAccounting | lib/FreeRTOS/tasks.c:4549-4559 | in every run uxMutexesHeld is the number of mutexes held, a mutex has count 0 just when it has a holder, no priority is below its base, and a task without mutexes runs at its base |
| Mutexes.BackToBase | lib/FreeRTOS/tasks.c:4038-4111 | inheritance leaves nothing behind: in every run a task that holds no mutex has exactly the rank it started with |
| Mutexes.StepBounded | lib/FreeRTOS/tasks.c:3951-4213 | every disciplined step keeps the holder, or a woken task, at least as high as all waiters |
| Mutexes.BoundedInversion | lib/FreeRTOS/queue.c:1442-1628 | in every disciplined run a holder runs at least at the priority of each waiter, and a free mutex with waiters has a woken ready task at least as high, through give, barging take and time-out |
| Mutexes.BlockKeepsTheBound | lib/FreeRTOS/tasks.c:3951-4031 | with any nesting: blocking on a mutex keeps every holder at least as high as its waiters if and only if nobody for whom the holder of that mutex waits is below the blocking task |
| Mutexes.StepKeepsTheBound | lib/FreeRTOS/queue.c:1442-1628 | for every step the condition on the state before it, under which that bound holds after it, and under which only |
| Mutexes.BoundedExactlyWhenFitting | lib/FreeRTOS/queue.c:1442-1628 | in every run, with any nesting and without the discipline, the bound holds throughout if and only if every step meets its condition |
| Mutexes.NestingBreaksTheBound | lib/FreeRTOS/tasks.c:3966-3971 | a run of four steps that keeps the bound up to the last one, which does not meet its condition and leaves a holder below a task that waits for it |
| Mutexes.RecursiveHeld | lib/FreeRTOS/queue.c:596-686 | a recursive mutex stays with its holder, its count being takes minus gives, as long as that is positive |
| Mutexes.RecursiveRelease | lib/FreeRTOS/queue.c:596-686 | a recursive mutex is freed exactly by the give that matches the first take |
| Mutexes.MutexQueues.TakeMutex | lib/FreeRTOS/queue.c:1452-1474 | the critical section is the abstract take step |
| Mutexes.MutexQueues.TakeMutexRecursive | lib/FreeRTOS/queue.c:651-684 | a recursive take counts on, or takes like any other and then counts |
| Mutexes.MutexQueues.GiveMutex | lib/FreeRTOS/queue.c:766-876 | one mutex held fewer, the base unchanged, with the last one the priority back at it; the mutex is free and its first waiter ready; a free mutex is full and refuses |
| Mutexes.MutexQueues.GiveMutexRecursive | lib/FreeRTOS/queue.c:596-641 | only the holder's give counts down, and only the last one releases |
| Mutexes.MutexQueues.BlockOnMutex | lib/FreeRTOS/queue.c:1544-1566 | blocking passes the priority on to the holder and queues the task by priority |
| Mutexes.MutexQueues.GiveUpOnMutex | lib/FreeRTOS/queue.c:1594-1617 | a timed-out waiter, if it has passed on its priority, lets the holder of this one mutex fall to the highest waiter left, or to its base if there is none |
| Timers.PlacementIsExact | lib/FreeRTOS/timers.c:668-706 | for a command less than 2^32 ticks old: processed at once if and only if expired, on the current list if and only if the expiry lies in the epoch of now, else in the next one |
| Timers.Daemon.constructor | lib/FreeRTOS/timers.c:916-964 | a started auto-reload timer is on record once, as a command |
| Timers.Daemon.InsertTimerInActiveList | lib/FreeRTOS/timers.c:668-706 | the timer is put in order on the list that the tests name, or on none |
| Timers.Daemon.ReloadHead | lib/FreeRTOS/timers.c:868-908 | a drained timer is called for its expiry and goes on for the next one, on the same list or by a command; the drain makes progress |
| Timers.Daemon.SwitchTimerLists | lib/FreeRTOS/timers.c:857-913 | draining calls every expiry of the old epoch, empties the list and exchanges the two lists |
| Timers.Daemon.SampleTimeNow | lib/FreeRTOS/timers.c:645-665 | a sample keeps the current list tied to the epoch of the sampled time, a missed wrap being harmless when both lists are empty |
| Timers.Daemon.ProcessExpiredTimer | lib/FreeRTOS/timers.c:482-520 | the head timer is called for its expiry and an auto-reload timer is on record for the next one |
| Timers.Daemon.ProcessTimerOrBlock | lib/FreeRTOS/timers.c:559-642 | an expired head is processed at once, else the daemon blocks no longer than until the first expiry; nothing is called early; without a command pending for the watched timer, every expiry up to now has then been called and the daemon sleeps no longer than until the next; it never sleeps for 0 ticks |
| Timers.Daemon.StartTimer | lib/FreeRTOS/timers.c:770-799 | a start command puts its timer on record, or calls it at once if expired and restarts it from that expiry |
| Timers.Daemon.ProcessReceivedCommand | lib/FreeRTOS/timers.c:709-854 | a command keeps the watched timer on record exactly once and its calls in sequence; a timer on no list and without a command is never called, nor one stopped or deleted |
| Timers.EveryExpiryIsCalled | lib/FreeRTOS/timers.c:559-642 | none lost: whenever the daemon goes to sleep with no command for the timer pending, the callbacks made are those of exactly the expiries up to now, and the next one is on a list |
| Timers.Daemon.Rearm | lib/FreeRTOS/timers.c:489-512 | a one-shot timer goes nowhere and is no longer active; an auto-reload timer goes to the one place that the tests name |
| Timers.Daemon.ExecuteCommand | lib/FreeRTOS/timers.c:753-852 | a stopped or deleted timer is put nowhere and called never, a started or changed one goes to the place that the tests name |
| Timers.CallsArePeriodic | lib/FreeRTOS/timers.c:482-520 | the k-th callback of an auto-reload timer belongs to start + k * period: none left out in between, none repeated, on time, late or at a wrap |
| StreamBuffer.WriteAppends | lib/FreeRTOS/stream_buffer.c:1088-1131 | a write in one or two pieces appends its bytes |
| StreamBuffer.ReadTakes | lib/FreeRTOS/stream_buffer.c:1134-1186 | a read in one or two pieces takes the first bytes |
| StreamBuffer.Stream.SpacesAvailable | lib/FreeRTOS/stream_buffer.c:470-491 | free space and stored bytes are always the length less one |
| StreamBuffer.Stream.BytesInBuffer | lib/FreeRTOS/stream_buffer.c:1189-1206 | the count is the number of bytes stored |
| StreamBuffer.Stream.WriteBytes | lib/FreeRTOS/stream_buffer.c:1088-1131 | the ring gains the bytes at the end |
| StreamBuffer.Stream.ReadBytes | lib/FreeRTOS/stream_buffer.c:1134-1186 | the ring loses its first bytes, even by an out-of-date count of what is available |
| StreamBuffer.Stream.Send | lib/FreeRTOS/stream_buffer.c:506-710 | a stream send writes as much as fits |
| StreamBuffer.Stream.Receive | lib/FreeRTOS/stream_buffer.c:713-814 | what was received followed by what is left is what was there |
| MessageBuffer.DecodeEncode | lib/FreeRTOS/stream_buffer.c:691 | the four length bytes give the length back |
| MessageBuffer.FirstMessage | lib/FreeRTOS/stream_buffer.c:787-794 | more than a length is stored if and only if a whole message is, and then the first one comes first |
| MessageBuffer.BodyWritten | lib/FreeRTOS/stream_buffer.c:699-703 | completing the body turns length and body into one more message behind the others |
| MessageBuffer.Messages.BeginSend | lib/FreeRTOS/stream_buffer.c:661-697 | a message is begun exactly if it fits with its length |
| MessageBuffer.Messages.WriteHeader | lib/FreeRTOS/stream_buffer.c:691 | between length and body the reader still sees only whole messages |
| MessageBuffer.Messages.WriteBody | lib/FreeRTOS/stream_buffer.c:699-703 | the message is sent, whatever the reader is doing |
| MessageBuffer.Messages.Sample | lib/FreeRTOS/stream_buffer.c:784-792 | a length without its body is never taken for a message |
| MessageBuffer.Messages.ReadHeader | lib/FreeRTOS/stream_buffer.c:927-955 | the length read is that of the first unread message; until the writer goes on there is room to put it back |
| MessageBuffer.Messages.Restore | lib/FreeRTOS/stream_buffer.c:937-945 | the length goes back into the buffer, for a receive buffer that is too short: the messages are all still there if and only if what is stored and being written leaves room for it |
| MessageBuffer.RejectedReadLoses | lib/FreeRTOS/stream_buffer.c:918-967 | a concrete rejected read, with a writer that comes in between, after which 3 bytes are left of two messages |
| MessageBuffer.Messages.ReadBody | lib/FreeRTOS/stream_buffer.c:963-966 | the message read is the oldest unread one, whole and unchanged |
| MessageBuffer.Messages.InOrder | lib/FreeRTOS/stream_buffer.c:661-967 | in every interleaving of these steps the messages received are the messages sent, in order |
| MessageBuffer.Messages.Receive | lib/FreeRTOS/stream_buffer.c:918-967 | without interruption: the first message, or nothing and unchanged contents if the receive buffer is too short |
| MessageBuffer.Messages.NextMessageLength | lib/FreeRTOS/stream_buffer.c:817-858 | the length of the first message, nothing moved; its assertion holds if and only if the writer is not between length and body on an otherwise empty buffer |
| MessageBuffer.AskedBetweenTheWrites | lib/FreeRTOS/stream_buffer.c:817-858 | a concrete buffer on which that assertion fails |
| EventGroups.PackedIs | lib/FreeRTOS/event_groups.c:362-387 | wanted bits and control bits come back out of the item value |
| EventGroups.MetIs | lib/FreeRTOS/event_groups.c:671-703 | the test bit by bit: for all, every wanted bit is set; for any, some wanted bit is |
| EventGroups.MinusIs | lib/FreeRTOS/event_groups.c:461-485 | clearing takes away exactly the given bits |
| EventGroups.StoredIs | lib/FreeRTOS/event_groups.c:577-600 | a released task gets the bits as they were set, whatever is cleared later |
| EventGroups.ClearMaskIsUnion | lib/FreeRTOS/event_groups.c:577-606 | the bits cleared are exactly the union of what the released, clearing waiters wanted |
| EventGroups.OrderDoesNotMatter | lib/FreeRTOS/event_groups.c:545-606 | the same waiters are released and the same bits cleared in whatever order the list is |
| EventGroups.LastArrivalReleasesAll | lib/FreeRTOS/event_groups.c:206-222 | a satisfied rendezvous releases each task waiting for the same bits, and each finds them all set |
| EventGroups.EventGroup.SetBits | lib/FreeRTOS/event_groups.c:519-610 | the traversal, which unlinks as it goes, releases exactly the waiters satisfied by old bits or set bits, keeps the others in order, clears the mask, and leaves no satisfied waiter |
| EventGroups.EventGroup.ClearBits | lib/FreeRTOS/event_groups.c:461-485 | the bits are cleared, the old value returned, and no waiter becomes satisfied |
| EventGroups.EventGroup.WaitBits | lib/FreeRTOS/event_groups.c:311-397 | blocks exactly if the condition is not met and a wait is allowed, else returns the bits and clears on request |
| EventGroups.EventGroup.Expire | lib/FreeRTOS/tasks.c:2736-2752 | a timed-out waiter leaves the list and nobody is stranded |
| EventGroups.EventGroup.Unblocked | lib/FreeRTOS/event_groups.c:399-458 | a released task gets the bits as they were set, a timed-out one the current bits, cleared on request if met since |
| EventGroups.EventGroup.Sync | lib/FreeRTOS/event_groups.c:191-249 | the last arrival returns all bits and leaves the rendezvous bits clear, others block; the waiters are released as by SetBits |
| Printer.WordFits | lib/printf/printf.c:282-302 | a 32-bit value in any base from 2 on has at most 32 digits |
| Printer.PutDigits | lib/printf/printf.c:293-299 | the digit loop writes all digits within the 32-byte buffer |
| Printer.NtoaFormat | lib/printf/printf.c:227-278 | for any width, precision and flags the buffer is never overrun and the text is padded digits, mark and sign |
| Printer.OutRev | lib/printf/printf.c:200-224 | the buffer comes out reversed between the leading or trailing spaces |
| Printer.NtoaLong | lib/printf/printf.c:282-302 | what is printed for any value, base, precision, width and flags |
| Printer.Atoi | lib/printf/printf.c:189-196 | the value in 32 bits of the leading digits, and the pointer behind them |
| Printer.ParseDigits | lib/printf/printf.c:189-302 | parsing the decimal digits of a value gives the value |
| Printer.PrintThenReadSigned | lib/printf/printf.c:227-302 | a signed decimal number is read back with its sign, for any flags but #, if and only if it is not negative, or 0, or its digits with zeros leave room in the 32-byte buffer |
| Printer.SignLost | lib/printf/printf.c:262-275 | the value -1 printed with 32 digits loses its sign |
| Printer.DigitsValue | lib/printf/printf.c:293-299 | the digits stand for the value in any base up to 36, the last one not 0 |
| Printer.DigitCharIs | lib/printf/printf.c:294-296 | each digit is that of the remainder, letters in the case asked for |
| Printer.MarkIs | lib/printf/printf.c:243-259 | the mark 0x, 0X or 0b in front of the digits |
| Printer.WidthIs | lib/printf/printf.c:200-278 | the text is as wide as asked for or as the number needs, with the exact number of digits |
| Printer.SpaceStopsTheParser | lib/printf/printf.c:189-302 | the value 1 printed to a width of 2 is read back as 0 |
| Printer.PrintThenParse | lib/printf/printf.c:189-302 | an unsigned decimal print is parsed back to its value if and only if the value is 0 or no space is in front |
| Reblock.OutputPbuf | core/src/hw/ethernetif.c:266-304 | one pbuf is copied over as many buffers as it takes, or stops at a descriptor that is not free |
| Reblock.LowLevelOutput | core/src/hw/ethernetif.c:251-309 | succeeds if and only if all descriptors needed are free; a frame that fits the ring is then in the buffers, in descriptor order |
| Reblock.LowLevelInput | core/src/hw/ethernetif.c:333-388 | a chain of any pbuf lengths is filled with the bytes of the buffers in descriptor order |
| Reblock.NeededIs | core/src/hw/ethernetif.c:266-300 | a descriptor is needed if it is the first, or the frame reaches beyond those before it |
| Reblock.Loopback | core/src/hw/ethernetif.c:264-388 | output and input compose to the identity on the bytes, for every way of splitting both chains |

## Left out

- Kernels.Kernel.AddCurrentToDelayedList: a wait of 0 ticks is excluded, because no caller of the blocking path passes 0 (see `Deadlines.SleepsATick` and `Timers.Daemon.ProcessTimerOrBlock`; `vTaskDelay` tests for it) and the code would file it under the current tick.
- KernelSteps.FallAsleep: the same, a wait of 0 ticks is excluded.
- Kernels.Kernel.PlaceOnEventList: the same, a wait of 0 ticks is excluded.
- Kernels.Kernel.constructor: the kernel as the scheduler starts, with the idle task only; the calls made before that are not modelled.
- Kernels.Kernel.Suspend: suspending a task before the scheduler runs, which changes the current task, is not modelled.
- Kernels.Kernel.IncrementTick: `uxPendedTicks` and the suspension depth are not wrapped at 32 bits.
- Kernels.Kernel.AddNewTask: tasks created before the scheduler starts are not modelled; the kernel starts with the idle task, and TCB and stack allocation, names and notification state are left out.
- Kernels.Kernel.RemoveFromEventList: that the head waiter has the highest priority holds while item values match priorities (`KernelRuns.WokenIsHighest`), which a change of the priority of a blocked task can end without its event list being re-sorted.
- Kernels.Kernel.SetPriority: that a priority stays at or above the base is not claimed, since a base set while a higher priority is inherited can exceed it.
- Kernels.Kernel.SwitchContext: the port-optimised bitmap selection, stack checks, run-time statistics and the context switch itself are not modelled; a requested yield is a separate later call.
- QueueRing.Queue.Reset: the lock counts and the waiting tasks are those of `QueueLocks.Queue.Reset`.
- QueueLocks.NoLostWakeUp: no deleted or suspended waiter, at most 127 interrupts of each kind per lock period, and resets only as `QueueLocks.ResetKeeps` allows; the time-out arithmetic is in `Deadlines`, so whether a wait has expired is an input here.
- Mutexes.BoundedInversion: assumes that takes are made by a task of the highest ready priority and that a task blocks on a mutex only while it holds none; several mutexes per task are allowed; without these assumptions see `Mutexes.BoundedExactlyWhenFitting`. `vTaskPrioritySet` and the deletion of a party are excluded.
- Timers.CallsArePeriodic: one auto-reload timer is watched, no other task sends commands for it, the command queue has room, and the daemon comes round within 2^32 ticks; a callback is an entry in a log, and one that itself sends commands is modelled by commands sent between two steps of the daemon.
- Timers.EveryExpiryIsCalled: under the same assumptions.
- Timers.Daemon.ProcessReceivedCommand: commands of other tasks for the watched timer, pended function calls and the freeing of deleted timers; one pass of the loop is one call. The active bit is written but nothing is claimed about it.
- MessageBuffer.Messages.Restore: nothing is claimed about the buffer once the tail has gone back without room. `NextMessageLength` is the same three steps without interruption.
- StreamBuffer.Stream.Send: waiting, trigger levels and notifications of the other side; empty data, which the code asserts against. Buffer sizes are assumed below 2^31.
- StreamBuffer.Stream.Receive: waiting and notifications of the other side.
- EventGroups.EventGroup.SetBits: moving the released tasks to the ready lists is a matter of `Kernels`; deletion of a group and the callbacks from interrupts are not modelled.
- Printer.NtoaLong: characters are bytes, `char` being unsigned; `_ntoa_long_long`, floating point, and the format parser around them are not modelled. The output function is the sequence of characters it is given.
- Reblock.LowLevelOutput: a frame longer than all buffers together comes round to its own first buffer, about which nothing is claimed; the OWN bits are an input, and starting the DMA, the interrupt and pbuf allocation are not modelled.
- Queue sets, the queue registry, co-routines, tickless idle, task notifications, trace and statistics, MPU and newlib hooks, memory allocation.
- Hardware set-up, the HAL, lwIP internals and the link and DHCP handling in `core/src/app/lwip.c`.
