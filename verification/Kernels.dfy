/** The scheduler of lib/FreeRTOS/tasks.c: 32-bit ticks, two delayed lists that change
    places when the tick count wraps, ready lists by priority, and the pending-ready list. */
module Kernels {
  import opened Rings
  import opened Clocks
  import opened Words
  import opened KernelLists
  import opened KernelSteps
  import opened Ranks

  class Kernel {
    var lists: map<ListName, Ring<Task>>
    var tcb: map<Task, Tcb>
    var current: Task            // pxCurrentTCB
    var delayed: ListName        // pxDelayedTaskList
    var overflow: ListName       // pxOverflowDelayedTaskList
    var tick: nat                // xTickCount
    var overflows: nat           // xNumOfOverflows
    var nextUnblock: nat         // xNextTaskUnblockTime
    var pended: nat              // uxPendedTicks
    var depth: nat               // uxSchedulerSuspended
    var yieldPending: bool       // xYieldPending
    var topReady: nat            // uxTopReadyPriority
    var taskCount: nat           // uxCurrentNumberOfTasks
    var toDelete: nat            // uxDeletedTasksWaitingCleanUp
    ghost var epoch: nat         // how often the tick count has wrapped
    ghost const idle: Task       // xIdleTaskHandle

    // The kernel as the scheduler starts, with the idle task only
    constructor (idle: Task)
      ensures Valid() && View() == Clock(0, 0, 0, map[idle := Info(Runnable, None, 0)])
      ensures current == idle == this.idle && IdleReady()
    {
      this.idle := idle;
      lists := map[Ready(0) := Ring([idle], 0)];
      tcb := map[idle := NewTcb(0)];
      current := idle;
      delayed, overflow := DelayedA, DelayedB;
      tick, overflows, epoch, pended, depth := 0, 0, 0, 0, 0;
      nextUnblock := MAX_DELAY;
      yieldPending := false;
      topReady, taskCount, toDelete := 0, 1, 0;
      new;
      IdleOnly(Mem(), idle);
      assert tcb[idle].stateIn == Some(Ready(0));
    }

    function Mem(): Store
      reads `lists, `tcb
    {
      Store(lists, tcb)
    }

    function Items(name: ListName): seq<Task>
      reads `lists, `tcb
    {
      Mem().At(name).items
    }

    /** Everything but the punctuality of the current delayed list. */
    ghost predicate Shape()
      reads `lists, `tcb, `topReady, `taskCount, `toDelete, `current
      reads `delayed, `overflow, `tick, `nextUnblock, `overflows, `epoch
    {
      && StoreOk(Mem(), topReady, taskCount, toDelete) && topReady < MAX_PRIORITIES
      && IsDelayList(delayed) && IsDelayList(overflow) && delayed != overflow
      && tick < WRAP && nextUnblock <= MAX_DELAY && overflows == epoch % WRAP
      && current in tcb
    }

    /** The invariant that holds whenever a tick can be processed. */
    ghost predicate Ticking()
      reads `lists, `tcb, `topReady, `taskCount, `toDelete, `current
      reads `delayed, `overflow, `tick, `nextUnblock, `overflows, `epoch, `depth
    {
      && Shape() && DelaysOk(Mem(), delayed, overflow, tick + 1)
      && DelaysOk(Mem(), delayed, overflow, nextUnblock)
      && (depth == 0 ==> Items(PendingReady) == [])
    }

    ghost predicate Valid()
      reads this
    {
      Ticking() && (depth == 0 ==> pended == 0)
    }

    /** The clock that this state stands for. */
    ghost function View(): Clock
      reads this
    {
      Clock(Now(), pended, depth, Tasks())
    }

    ghost function Now(): nat
      reads `epoch, `tick
    {
      epoch * WRAP + tick
    }

    ghost function Tasks(): map<Task, Info>
      reads `tcb, `delayed, `epoch
    {
      InfoMap(tcb, delayed, epoch)
    }

    ghost function Agenda(): seq<Task>
      reads `lists, `tcb, `delayed, `overflow
    {
      KernelSteps.Agenda(Mem(), delayed, overflow)
    }

    /** The idle task can run. Every call keeps it so that does not block, suspend or delete
        the idle task itself: see Clocks.StaysRunnable. */
    ghost predicate IdleReady()
      reads `tcb, `delayed, `epoch
    {
      idle in Tasks() && Tasks()[idle].status.Runnable?
    }

    /** So the selection loop always finds a task. */
    lemma SomeoneIsReady()
      requires Valid() && IdleReady()
      ensures SomeReady(Mem())
    {
      hide DelaysOk, Store.Ok, TasksOk;
      RunnableIsReady(Mem(), topReady, delayed, epoch, idle);
      assert tcb[idle].stateIn.Some?;
    }

    /** No sleeper's wake-up time has passed. */
    lemma NoneLate()
      requires Ticking()
      ensures View().Punctual() && WokenBy(Tasks(), Now()) == Tasks()
    {
      NobodyLate(Mem(), delayed, overflow, epoch, topReady, tick, Tasks(), Now());
    }

    // taskSWITCH_DELAYED_LISTS
    method SwitchDelayedLists()
      requires Shape() && DelaysOk(Mem(), delayed, overflow, WRAP)
      modifies `delayed, `overflow, `overflows, `nextUnblock, `epoch
      ensures Shape() && DelaysOk(Mem(), delayed, overflow, 0)
      ensures DelaysOk(Mem(), delayed, overflow, nextUnblock)
      ensures Now() == old(Now()) + WRAP && Tasks() == old(Tasks()) && Agenda() == old(Agenda())
    {
      hide InfoMap, SortedByTime;
      WrapSwitches(Mem(), delayed, overflow, epoch, topReady);
      assert Items(delayed) == [];  // the configASSERT of the macro
      delayed, overflow := overflow, delayed;
      overflows := (overflows + 1) % WRAP;
      epoch := epoch + 1;
      nextUnblock := NextWakeTime(Mem(), delayed, overflow, 0, topReady);
    }

    // The first half of xTaskIncrementTick
    method AdvanceTick()
      requires Ticking()
      modifies `tick, `delayed, `overflow, `overflows, `nextUnblock, `epoch
      ensures Shape() && DelaysOk(Mem(), delayed, overflow, tick)
      ensures DelaysOk(Mem(), delayed, overflow, nextUnblock)
      ensures Now() == old(Now()) + 1 && Tasks() == old(Tasks()) && Agenda() == old(Agenda())
    {
      tick := (tick + 1) % WRAP;
      if tick == 0 {
        SwitchDelayedLists();
      }
    }

    // The second half of xTaskIncrementTick
    method WakeSleepers() returns (preempted: bool)
      requires Shape() && DelaysOk(Mem(), delayed, overflow, tick)
      requires DelaysOk(Mem(), delayed, overflow, nextUnblock)
      modifies `lists, `tcb, `topReady, `nextUnblock
      ensures Shape() && DelaysOk(Mem(), delayed, overflow, tick + 1)
      ensures DelaysOk(Mem(), delayed, overflow, nextUnblock)
      ensures Tasks() == WokenBy(old(Tasks()), Now())
      ensures old(Items(PendingReady)) == [] ==> Items(PendingReady) == []
      ensures preempted <==> Preempted(old(Tasks()), Now(), current)
      ensures nextUnblock == if tick >= old(nextUnblock) then HeadTime(Mem(), delayed) else old(nextUnblock)
      ensures Ticked(old(Mem()), Mem(), old(Agenda()), Agenda(), DueBy(old(Agenda()), old(Tasks()), Now()))
    {
      hide InfoMap, WokenBy, DelaysOk, Preempted, HeadTime, Ticked, DueBy;
      DelaysLower(Mem(), delayed, overflow, tick, 0);
      if tick >= nextUnblock {
        var s', top', next;
        s', top', next, preempted :=
          UnblockExpired(Mem(), topReady, delayed, overflow, tick, epoch, current,
                         taskCount, toDelete, Tasks(), Now());
        lists, tcb, topReady, nextUnblock := s'.lists, s'.tcb, top', next;
      } else {
        NothingDue(Mem(), delayed, overflow, epoch, Tasks(), Now(), topReady, tick, nextUnblock);
        KernelSteps.NobodyTicked(Mem(), delayed, overflow, Tasks(), Now());
        preempted := false;
      }
    }

    /** The running task shares its priority with another ready task: time slicing. */
    ghost predicate Shared()
      requires current in tcb
      reads `lists, `tcb, `current
    {
      |Items(Ready(tcb[current].priority))| > 1
    }

    lemma CurrentExists()
      requires Ticking()
      ensures current in tcb
    {
    }

    /** Time slicing stays due from one tick to the next. */
    twostate lemma StillShared()
      requires old(Ticking()) && Ticking() && current == old(current)
      requires Tasks() == WokenBy(old(Tasks()), Now())
      ensures current in tcb && old(current in tcb) && (old(Shared()) ==> Shared())
    {
      hide InfoMap, WokenBy, DelaysOk, Store.Ok, TasksOk;
      ReadyGrows(old(Mem()), Mem(), old(topReady), topReady, old(delayed), delayed, old(epoch), epoch, Now(),
                 tcb[current].priority);
    }

    // xTaskIncrementTick with the scheduler running, up to the time slicing
    method ProcessTick() returns (preempted: bool)
      requires Ticking()
      modifies `lists, `tcb, `topReady, `tick, `delayed, `overflow, `overflows, `nextUnblock, `epoch
      ensures Ticking()
      ensures Now() == old(Now()) + 1 && Tasks() == WokenBy(old(Tasks()), Now())
      ensures preempted <==> Preempted(old(Tasks()), Now(), current)
      ensures Ticked(old(Mem()), Mem(), old(Agenda()), Agenda(), DueBy(old(Agenda()), old(Tasks()), Now()))
    {
      hide Woke, DueBy;
      AdvanceTick();
      preempted := WakeSleepers();
    }

    // xTaskIncrementTick
    method IncrementTick() returns (switchRequired: bool)
      requires Ticking()
      modifies `lists, `tcb, `topReady, `tick, `delayed, `overflow, `overflows, `nextUnblock, `epoch
      modifies `pended
      ensures Ticking()
      ensures View() == Apply(old(View()), TickInterrupt)
      ensures depth == 0 ==>
                Now() == old(Now()) + 1 && Tasks() == WokenBy(old(Tasks()), Now()) && pended == old(pended)
      ensures current in tcb
      ensures switchRequired <==>
                || yieldPending
                || (depth == 0 && Shared())
                || (depth == 0 && Preempted(old(Tasks()), Now(), current))
      ensures depth == 0 ==>
                Ticked(old(Mem()), Mem(), old(Agenda()), Agenda(), DueBy(old(Agenda()), old(Tasks()), Now()))
      ensures depth > 0 ==> lists == old(lists) && tcb == old(tcb)
    {
      hide InfoMap, WokenBy, DelaysOk, Preempted, Store.Ok, TasksOk, Woke, DueBy;
      switchRequired := false;
      if depth == 0 {
        switchRequired := ProcessTick();
        if |Items(Ready(tcb[current].priority))| > 1 {
          switchRequired := true;
        }
      } else {
        pended := pended + 1;
      }
      if yieldPending {
        switchRequired := true;
      }
    }

    // vTaskSuspendAll
    method SuspendScheduler()
      requires Valid()
      modifies `depth
      ensures Valid() && View() == Apply(old(View()), SuspendAll) && depth == old(depth) + 1
    {
      depth := depth + 1;
    }

    // The first part of xTaskResumeAll: the pending-ready list
    method MovePending()
      requires Shape() && DelaysOk(Mem(), delayed, overflow, tick + 1)
      requires DelaysOk(Mem(), delayed, overflow, nextUnblock)
      modifies `lists, `tcb, `topReady, `yieldPending, `nextUnblock
      ensures Shape() && DelaysOk(Mem(), delayed, overflow, tick + 1)
      ensures DelaysOk(Mem(), delayed, overflow, nextUnblock)
      ensures Items(PendingReady) == [] && Tasks() == Drained(old(Tasks()))
      ensures yieldPending <==> old(yieldPending) || SomeoneAbove(old(Items(PendingReady)), old(tcb), current)
      ensures nextUnblock == if old(Items(PendingReady)) == [] then old(nextUnblock) else HeadTime(Mem(), delayed)
      ensures Woke(old(Mem()), Mem(), old(Items(PendingReady)))
      ensures forall n :: DueBy(Agenda(), Tasks(), n) == DueBy(old(Agenda()), Tasks(), n)
    {
      hide InfoMap, Drained, DelaysOk, HeadTime, SomeoneAbove, Store.Ok, TasksOk, Woke, DueBy;
      ghost var s, tasks := Mem(), Tasks();
      var s', top', next', mustYield :=
        DrainPending(Mem(), topReady, delayed, overflow, epoch, current, taskCount, toDelete,
                     nextUnblock, tick + 1, Tasks());
      lists, tcb, topReady, nextUnblock := s'.lists, s'.tcb, top', next';
      yieldPending := yieldPending || mustYield;
      forall n ensures DueBy(Agenda(), Tasks(), n) == DueBy(old(Agenda()), Tasks(), n) {
        DueSplit(s.At(delayed).items, s.At(overflow).items, Tasks(), n);
        DueSplit(Items(delayed), Items(overflow), Tasks(), n);
      }
    }

    // One of the ticks that were held back, the tasks having been `tasks`, the lists those of
    // `s`, and the sleepers `agenda` before the first of them
    method DeliverTick(ghost s: Store, ghost tasks: map<Task, Info>, ghost agenda: seq<Task>)
      requires Ticking() && depth == 0 && Tasks() == WokenBy(tasks, Now()) && forall t <- agenda :: t in s.tcb
      requires Ticked(s, Mem(), agenda, Agenda(), DueBy(agenda, tasks, Now()))
      modifies `lists, `tcb, `topReady, `tick, `delayed, `overflow, `overflows, `nextUnblock, `epoch
      modifies `pended, `yieldPending
      ensures Ticking() && Now() == old(Now()) + 1 && Tasks() == WokenBy(tasks, Now()) && pended == old(pended)
      ensures Ticked(s, Mem(), agenda, Agenda(), DueBy(agenda, tasks, Now()))
      ensures current in tcb && old(current in tcb) && (old(Shared()) ==> Shared())
      ensures yieldPending <==> old(yieldPending) || Shared() || Preempted(old(Tasks()), Now(), current)
    {
      hide InfoMap, WokenBy, View, Preempted, Shared, Ticked, DueBy, DelaysOk, StoreOk, AllSleep;
      ghost var s1, a1 := Mem(), Agenda();
      SleepersSleep();
      WokenTwice(tasks, Now(), Now() + 1);
      label tick:
      var switchRequired := IncrementTick();
      StillShared@tick();
      TickedThen(s, s1, Mem(), agenda, a1, Agenda(), tasks, old(Now()));
      yieldPending := yieldPending || switchRequired;
    }

    lemma SleepersSleep()
      requires Ticking()
      ensures AllSleep(Agenda(), Tasks()) && forall t <- Agenda() :: t in tcb
    {
      AgendaSleeps(Mem(), delayed, overflow, epoch);
    }

    // The second part of xTaskResumeAll: the ticks that were held back
    method DeliverPended()
      requires Ticking() && depth == 0
      modifies `lists, `tcb, `topReady, `tick, `delayed, `overflow, `overflows, `nextUnblock, `epoch
      modifies `pended, `yieldPending
      ensures Valid()
      ensures Now() == old(Now() + pended) && Tasks() == WokenBy(old(Tasks()), Now())
      ensures pended == 0 && current in tcb
      ensures yieldPending <==>
                || old(yieldPending)
                || (old(pended) > 0 && (Shared() || Preempted(old(Tasks()), Now(), current)))
      ensures Ticked(old(Mem()), Mem(), old(Agenda()), Agenda(), DueBy(old(Agenda()), old(Tasks()), Now()))
    {
      hide InfoMap, WokenBy, Ticking, View, Preempted, Shared, Ticked, DueBy, AllSleep;
      ghost var s, tasks, agenda, now := Mem(), Tasks(), Agenda(), Now();
      NoneLate();
      CurrentExists();
      SleepersSleep();
      NobodyTicked();
      var counts: nat := pended;
      while counts > 0
        invariant Ticking() && counts <= pended == old(pended)
        invariant Now() == now + pended - counts && Tasks() == WokenBy(tasks, Now())
        invariant Ticked(s, Mem(), agenda, Agenda(), DueBy(agenda, tasks, Now()))
        invariant current in tcb
        invariant yieldPending <==>
                    || old(yieldPending)
                    || (counts < pended && (Shared() || Preempted(tasks, Now(), current)))
      {
        if Preempted(tasks, Now() + 1, current) {
          PreemptedLater(tasks, Now(), current);
        } else if Preempted(tasks, Now(), current) || Preempted(Tasks(), Now() + 1, current) {
          PreemptedStays(tasks, Now(), current);
        }
        DeliverTick(s, tasks, agenda);
        counts := counts - 1;
      }
      pended := 0;
    }

    lemma NobodyTicked()
      requires Ticking()
      ensures Ticked(Mem(), Mem(), Agenda(), Agenda(), DueBy(Agenda(), Tasks(), Now()))
    {
      hide Ticked;
      NoneLate();
      KernelSteps.NobodyTicked(Mem(), delayed, overflow, Tasks(), Now());
    }

    // xTaskResumeAll
    method ResumeScheduler() returns (yielded: bool)
      requires Valid() && depth > 0
      modifies `lists, `tcb, `topReady, `tick, `delayed, `overflow, `overflows, `nextUnblock, `epoch
      modifies `pended, `yieldPending, `depth
      ensures Valid() && View() == Apply(old(View()), ResumeAll) && depth == old(depth) - 1
      ensures if depth > 0 then Now() == old(Now()) && pended == old(pended)
              else Now() == old(Now()) + old(pended) && pended == 0
      ensures yielded <==> depth == 0 && yieldPending
      ensures current in tcb
      ensures depth > 0 ==> yieldPending == old(yieldPending)
      ensures depth == 0 ==>
        (yieldPending <==>
           || old(yieldPending)
           || SomeoneAbove(old(Items(PendingReady)), old(tcb), current)
           || (old(pended) > 0 && (Shared() || Preempted(Drained(old(Tasks())), Now(), current))))
      ensures depth == 0 ==>
        Woke(old(Mem()), Mem(), old(Items(PendingReady)) + DueBy(old(Agenda()), Drained(old(Tasks())), Now()))
      ensures depth > 0 ==> lists == old(lists) && tcb == old(tcb)
    {
      hide Woke, DueBy;
      hide Shared, InfoMap, WokenBy, Drained, SomeoneAbove, Preempted, DelaysOk, Store.Ok, TasksOk;
      yielded := false;
      if depth == 1 {
        ResumeIs(View());
      }
      depth := depth - 1;
      if depth == 0 {
        ghost var s, pending := Mem(), Items(PendingReady);
        PendingAreHeld();
        MovePending();
        ghost var s1, tasks, due := Mem(), Tasks(), DueBy(Agenda(), Tasks(), Now() + pended);
        DueAreDue(Agenda(), tasks, Now() + pended);
        SleepersSleep();
        DeliverPended();
        assert Woke(s1, Mem(), due);
        PendingThenDue(s, s1, Mem(), pending, due, tasks);
        yielded := yieldPending;
      }
    }

    lemma PendingAreHeld()
      requires Shape()
      ensures forall t <- Items(PendingReady) ::
                t in Tasks() && t in Drained(Tasks()) && Drained(Tasks())[t].status.Runnable?
    {
      ListIs(Mem(), PendingReady);
    }

    // prvAddCurrentTaskToDelayedList
    method AddCurrentToDelayedList(ticks: nat, indefinitely: bool)
      requires Ticking() && 1 <= ticks <= MAX_DELAY
      requires tcb[current].stateIn == Some(Ready(tcb[current].priority))
      modifies `lists, `tcb, `nextUnblock
      ensures Ticking()
      ensures Tasks() == old(Tasks())[current :=
        Info(if ticks == MAX_DELAY && indefinitely then Parked else Sleeping(Now() + ticks),
             old(tcb)[current].eventIn, old(tcb)[current].priority)]
      ensures SameEvents(old(Mem()), Mem())
      ensures if ticks == MAX_DELAY && indefinitely then StopsForEver(old(Mem()), Mem(), current, [])
              else Stops(old(Mem()), Mem(), current, [], if tick + ticks < WRAP then delayed else overflow,
                         (tick + ticks) % WRAP)
    {
      hide InfoMap, DelaysOk, StoreOk, Stops, StopsForEver;
      if ticks == MAX_DELAY && indefinitely {
        var s' := Park(Mem(), current, topReady, delayed, overflow, epoch, tick + 1, nextUnblock,
                       taskCount, toDelete);
        lists, tcb := s'.lists, s'.tcb;
      } else {
        var s', next := FallAsleep(Mem(), current, ticks, tick, nextUnblock, topReady,
                                   delayed, overflow, epoch, taskCount, toDelete);
        lists, tcb, nextUnblock := s'.lists, s'.tcb, next;
      }
    }

    // The sorted insertion of vTaskPlaceOnEventList
    method JoinEventList(q: nat)
      requires Ticking()
      requires tcb[current].stateIn == Some(Ready(tcb[current].priority)) && tcb[current].eventIn == None
      modifies `lists, `tcb
      ensures Ticking() && tcb == old(tcb)[current := old(tcb)[current].(eventIn := Some(Event(q)))]
      ensures Tasks() == old(Tasks())[current :=
        Info(Runnable, Some(Event(q)), old(tcb)[current].priority)]
      ensures forall u <- old(Items(Event(q))) :: u in old(tcb)
      ensures var p := SortPosition(old(Items(Event(q))), old(tcb), true, old(tcb)[current].eventValue);
              && Items(Event(q)) == old(Items(Event(q)))[..p] + [current] + old(Items(Event(q)))[p..]
              && Moved(old(Mem()), Mem(), [ListOp(Event(q), Put(p, current))])
      ensures forall name :: name != Event(q) ==> Mem().At(name) == old(Mem()).At(name)
    {
      hide InfoMap, DelaysOk, SortedByTime, Store.Ok, TasksOk, Moved, SortPosition;
      var s' := LinkSorted(Mem(), Event(q), current);
      EventMoved(Mem(), s', Event(q), current, Some(Event(q)), topReady, taskCount, toDelete, delayed, overflow, epoch);
      lists, tcb := s'.lists, s'.tcb;
    }

    // vTaskPlaceOnEventList
    method PlaceOnEventList(q: nat, ticks: nat)
      requires Ticking() && 1 <= ticks <= MAX_DELAY
      requires tcb[current].stateIn == Some(Ready(tcb[current].priority)) && tcb[current].eventIn == None
      modifies `lists, `tcb, `nextUnblock
      ensures Ticking()
      ensures Tasks() == old(Tasks())[current :=
        Info(if ticks == MAX_DELAY then Parked else Sleeping(Now() + ticks), Some(Event(q)),
             old(tcb)[current].priority)]
      ensures forall u <- old(Items(Event(q))) :: u in old(tcb)
      ensures var p := SortPosition(old(Items(Event(q))), old(tcb), true, old(tcb)[current].eventValue);
              Items(Event(q)) == old(Items(Event(q)))[..p] + [current] + old(Items(Event(q)))[p..]
      ensures forall name :: HoldsEvents(name) && name != Event(q) ==> Mem().At(name) == old(Mem()).At(name)
      ensures WaitsOn(old(Mem()), Mem(), q, current, ticks, tick, delayed, overflow)
    {
      hide InfoMap, DelaysOk, SortedByTime, Store.Ok, TasksOk, Moved, SortPosition, Stops, StopsForEver, WaitsOn;
      ghost var s := Mem();
      JoinEventList(q);
      ghost var s1 := Mem();
      AddCurrentToDelayedList(ticks, true);
      JoinsThenStops(s, s1, Mem(), q, current, ticks, tick, delayed, overflow);
    }

    // A step on one task becomes the state of the kernel
    method Commit(s: Store, top: nat, ghost t: Task, ghost info: Info)
      requires Valid() && (depth == 0 ==> s.At(PendingReady).items == [])
      requires Stepped(Mem(), topReady, s, top, taskCount, toDelete, delayed, overflow, epoch, t, info)
      modifies `lists, `tcb, `topReady
      ensures Valid() && View() == old(View()).Set(t, info) && Mem() == s
    {
      hide InfoMap, DelaysOk, SortedByTime, Store.Ok, TasksOk;
      lists, tcb, topReady := s.lists, s.tcb, top;
    }

    // prvResetNextTaskUnblockTime
    method ResetNextUnblock()
      requires Valid()
      modifies `nextUnblock
      ensures Valid() && View() == old(View()) && nextUnblock == HeadTime(Mem(), delayed)
    {
      hide InfoMap, DelaysOk, SortedByTime, Store.Ok, TasksOk;
      nextUnblock := NextWakeTime(Mem(), delayed, overflow, tick + 1, topReady);
    }

    // xTaskRemoveFromEventList
    method RemoveFromEventList(q: nat) returns (higher: bool)
      requires Valid() && Items(Event(q)) != []
      modifies `lists, `tcb, `topReady, `yieldPending
      ensures Valid()
      ensures var t := old(Items(Event(q)))[0];
              && t in old(tcb) && t in old(Tasks()) && Items(Event(q)) == old(Items(Event(q)))[1..]
              && View() == Apply(old(View()), Touch(t,
                   if depth == 0 then old(Tasks())[t].Woken()
                   else old(Tasks())[t].(waitsOn := Some(PendingReady))))
              && (higher <==> old(tcb)[t].priority > old(tcb)[current].priority)
              && (yieldPending <==> old(yieldPending) || higher)
              && if depth == 0 then HeadReady(old(Mem()), Mem(), q, t) else HeadHeld(old(Mem()), Mem(), q, t)
    {
      hide HeadReady, HeadHeld;
      hide InfoMap, Stepped, DelaysOk, SortedByTime, Store.Ok, TasksOk;
      var t := Items(Event(q))[0];
      HeadWaits(Mem(), q, topReady, delayed, epoch);
      higher := tcb[t].priority > tcb[current].priority;
      var s', top' := WakeHead(Mem(), topReady, q, depth != 0, taskCount, toDelete, delayed, overflow, epoch);
      ghost var info := Tasks()[t];
      Commit(s', top', t, if depth == 0 then info.Woken() else info.(waitsOn := Some(PendingReady)));
      yieldPending := yieldPending || higher;
    }

    // vTaskSuspend; whether it yields at the end, and whether the configASSERT there holds
    method Suspend(t: Task) returns (mustYield: bool, asserted: bool)
      requires Valid() && t in tcb && tcb[t].stateIn != Some(Termination)
      modifies `lists, `tcb, `topReady, `nextUnblock
      ensures Valid() && View() == Apply(old(View()), Touch(t, Info(Parked, None, old(tcb)[t].priority)))
      ensures nextUnblock == HeadTime(Mem(), delayed)
      ensures (mustYield <==> t == current) && (asserted <==> t != current || depth == 0)
      ensures tcb == old(tcb)[t := old(tcb)[t].(stateIn := Some(Suspended), eventIn := None)]
      ensures Moved(old(Mem()), Mem(), OffBoth(old(tcb)[t], t) + [ListOp(Suspended, Add(t))])
    {
      hide Moved, OffBoth;
      hide InfoMap, Stepped, DelaysOk, SortedByTime, Store.Ok, TasksOk;
      var s' := Halt(Mem(), t, topReady, taskCount, toDelete, delayed, overflow, epoch);
      Commit(s', topReady, t, Info(Parked, None, tcb[t].priority));
      ResetNextUnblock();
      mustYield := t == current;
      asserted := !mustYield || depth == 0;
    }

    // prvTaskIsTaskSuspended
    predicate IsSuspended(t: Task)
      requires t in tcb
      reads `tcb
    {
      tcb[t].stateIn == Some(Suspended) && tcb[t].eventIn == None
    }

    // vTaskResume
    method Resume(t: Task) returns (switchRequired: bool)
      requires Valid() && t in tcb
      modifies `lists, `tcb, `topReady
      ensures Valid()
      ensures t == current || !old(IsSuspended(t)) ==> !switchRequired && View() == old(View())
      ensures t != current && old(IsSuspended(t)) ==>
        && View() == Apply(old(View()), Touch(t, Info(Runnable, None, old(tcb)[t].priority)))
        && (switchRequired <==> old(tcb)[t].priority >= old(tcb)[current].priority)
        && Revived(old(Mem()), Mem(), t)
      ensures t == current || !old(IsSuspended(t)) ==> lists == old(lists) && tcb == old(tcb)
    {
      hide Revived;
      hide InfoMap, Stepped, DelaysOk, SortedByTime, Store.Ok, TasksOk;
      switchRequired := false;
      if t != current && IsSuspended(t) {
        switchRequired := tcb[t].priority >= tcb[current].priority;
        var s', top' := Revive(Mem(), topReady, t, taskCount, toDelete, delayed, overflow, epoch);
        Commit(s', top', t, Info(Runnable, None, tcb[t].priority));
      }
    }

    // xTaskResumeFromISR
    method ResumeFromISR(t: Task) returns (switchRequired: bool)
      requires Valid() && t in tcb
      modifies `lists, `tcb, `topReady
      ensures Valid()
      ensures !old(IsSuspended(t)) ==> !switchRequired && View() == old(View())
      ensures old(IsSuspended(t)) ==>
        && View() == Apply(old(View()), Touch(t,
             if depth == 0 then Info(Runnable, None, old(tcb)[t].priority)
             else Info(Parked, Some(PendingReady), old(tcb)[t].priority)))
        && (switchRequired <==> depth == 0 && old(tcb)[t].priority >= old(tcb)[current].priority)
        && if depth == 0 then Revived(old(Mem()), Mem(), t) else Held(old(Mem()), Mem(), t)
      ensures !old(IsSuspended(t)) ==> lists == old(lists) && tcb == old(tcb)
    {
      hide Revived, Held;
      hide InfoMap, Stepped, DelaysOk, SortedByTime, Store.Ok, TasksOk;
      switchRequired := false;
      if IsSuspended(t) {
        if depth == 0 {
          switchRequired := tcb[t].priority >= tcb[current].priority;
          var s', top' := Revive(Mem(), topReady, t, taskCount, toDelete, delayed, overflow, epoch);
          Commit(s', top', t, Info(Runnable, None, tcb[t].priority));
        } else {
          var s' := HoldPending(Mem(), t, topReady, taskCount, toDelete, delayed, overflow, epoch);
          Commit(s', topReady, t, Info(Parked, Some(PendingReady), tcb[t].priority));
        }
      }
    }

    // vTaskSwitchContext with the generic taskSELECT_HIGHEST_PRIORITY_TASK
    method SwitchContext()
      requires Valid() && IdleReady()
      modifies `lists, `current, `topReady, `yieldPending
      ensures Valid() && IdleReady() && View() == old(View())
      ensures depth > 0 ==> yieldPending && current == old(current) && lists == old(lists)
      ensures depth == 0 ==>
        && !yieldPending && old(Mem()).At(Ready(topReady)).items != [] && old(Mem()).At(Ready(topReady)).Valid()
        && current == old(Mem()).At(Ready(topReady)).Turn()[0]
        && tcb[current].stateIn == Some(Ready(topReady))
        && Mem().At(Ready(topReady)) == old(Mem()).At(Ready(topReady)).Next()
        && Moved(old(Mem()), Mem(), [ListOp(Ready(topReady), Select)])
      ensures depth == 0 ==>
        forall t <- tcb :: Tasks()[t].status.Runnable? ==> tcb[t].priority <= tcb[current].priority
    {
      if depth > 0 {
        yieldPending := true;
      } else {
        yieldPending := false;
        SelectHighestTask();
      }
    }

    // taskSELECT_HIGHEST_PRIORITY_TASK
    method SelectHighestTask()
      requires Valid() && IdleReady() && depth == 0
      modifies `lists, `current, `topReady
      ensures Valid() && View() == old(View())
      ensures old(Mem()).At(Ready(topReady)).items != [] && old(Mem()).At(Ready(topReady)).Valid()
      ensures current == old(Mem()).At(Ready(topReady)).Turn()[0] && current in tcb
      ensures tcb[current].stateIn == Some(Ready(topReady)) && tcb[current].priority == topReady
      ensures Mem().At(Ready(topReady)) == old(Mem()).At(Ready(topReady)).Next()
      ensures Moved(old(Mem()), Mem(), [ListOp(Ready(topReady), Select)])
      ensures forall t <- tcb :: Tasks()[t].status.Runnable? ==> tcb[t].priority <= topReady
    {
      hide DelaysOk, SortedByTime, TasksOk, Moved;
      var s := Mem();
      SomeoneIsReady();
      var p := SelectHighest(s, topReady);
      IndexMoved(s, Ready(p), p, taskCount, toDelete, delayed, overflow);
      assert s.ListOk(Ready(p));
      NextTurn(s.At(Ready(p)));
      lists := lists[Ready(p) := s.At(Ready(p)).Next()];
      current, topReady := s.At(Ready(p)).Turn()[0], p;
      assert s.On(current, Ready(p));
      forall t | t in tcb && Tasks()[t].status.Runnable? ensures tcb[t].priority <= p {
        TaskIsOk(tcb, p, t);
      }
      TaskIsOk(tcb, p, current);
    }

    // prvAddNewTaskToReadyList, with the scheduler running
    method AddNewTask(t: Task, priority: nat) returns (switchRequired: bool)
      requires Valid() && t !in tcb && priority < MAX_PRIORITIES
      modifies `lists, `tcb, `topReady, `taskCount
      ensures Valid() && taskCount == old(taskCount) + 1
      ensures View() == Apply(old(View()), Touch(t, Info(Runnable, None, priority)))
      ensures tcb == old(tcb)[t := NewTcb(priority)]
      ensures old(Mem()).At(Ready(priority)).Valid()
      ensures Mem().At(Ready(priority)) == old(Mem()).At(Ready(priority)).InsertEnd(t)
      ensures switchRequired <==> tcb[current].priority < priority
      ensures Moved(old(Mem()), Mem(), [ListOp(Ready(priority), Add(t))])
    {
      hide Moved;
      hide InfoMap, DelaysOk, SortedByTime, Store.Ok, TasksOk;
      var s', top' := Admit(Mem(), topReady, t, priority, delayed, overflow, epoch, taskCount, toDelete);
      lists, tcb, topReady, taskCount := s'.lists, s'.tcb, top', taskCount + 1;
      switchRequired := tcb[current].priority < priority;
    }

    // A TCB leaves its lists and the system
    method RemoveTask(t: Task)
      requires Valid() && t in tcb && t != current
      modifies `lists, `tcb, `taskCount, `toDelete
      ensures Valid() && View() == Apply(old(View()), Forget(t)) && taskCount == old(taskCount) - 1
      ensures tcb == old(tcb) - {t}
      ensures toDelete == if old(tcb)[t].stateIn == Some(Termination) then old(toDelete) - 1 else old(toDelete)
      ensures Moved(old(Mem()), Mem(), OffBoth(old(tcb)[t], t))
    {
      hide Moved, OffBoth;
      hide InfoMap, DelaysOk, SortedByTime, Store.Ok, TasksOk;
      var s' := Expel(Mem(), t, topReady, delayed, overflow, epoch, taskCount, toDelete);
      if tcb[t].stateIn == Some(Termination) {
        toDelete := toDelete - 1;
      }
      lists, tcb, taskCount := s'.lists, s'.tcb, taskCount - 1;
    }

    // vTaskDelete; whether it yields at the end, and whether the configASSERT there holds
    method Delete(t: Task) returns (mustYield: bool, asserted: bool)
      requires Valid() && t in tcb && tcb[t].stateIn != Some(Termination)
      modifies `lists, `tcb, `topReady, `nextUnblock, `taskCount, `toDelete
      ensures Valid()
      ensures t == current ==>
        && View() == Apply(old(View()), Touch(t, Info(Dying, None, old(tcb)[t].priority)))
        && taskCount == old(taskCount) && toDelete == old(toDelete) + 1
      ensures t != current ==>
        && View() == Apply(old(View()), Forget(t))
        && taskCount == old(taskCount) - 1 && toDelete == old(toDelete)
        && nextUnblock == HeadTime(Mem(), delayed)
        && tcb == old(tcb) - {t} && Moved(old(Mem()), Mem(), OffBoth(old(tcb)[t], t))
      ensures t == current ==>
        && tcb == old(tcb)[t := old(tcb)[t].(stateIn := Some(Termination), eventIn := None)]
        && Moved(old(Mem()), Mem(), OffBoth(old(tcb)[t], t) + [ListOp(Termination, Add(t))])
      ensures (mustYield <==> t == current) && (asserted <==> t != current || depth == 0)
    {
      hide InfoMap, DelaysOk, SortedByTime, Store.Ok, TasksOk, Moved, OffBoth;
      mustYield := t == current;
      asserted := !mustYield || depth == 0;
      if t == current {
        var s' := Bury(Mem(), t, topReady, taskCount, toDelete, delayed, overflow, epoch);
        lists, tcb, toDelete := s'.lists, s'.tcb, toDelete + 1;
      } else {
        RemoveTask(t);
        ResetNextUnblock();
      }
    }

    // prvCheckTasksWaitingTermination, run by the idle task
    method CleanUp()
      requires Valid() && tcb[current].stateIn != Some(Termination)
      modifies `lists, `tcb, `taskCount, `toDelete
      ensures Valid() && toDelete == 0
      ensures View() == old(View()).(tasks := Living(old(Tasks())))
      ensures taskCount == old(taskCount) - old(toDelete)
      ensures tcb == map t | t in old(tcb) && old(tcb)[t].stateIn != Some(Termination) :: old(tcb)[t]
      ensures forall name :: name != Termination ==> Mem().At(name) == old(Mem()).At(name)
    {
      hide Moved, OffBoth;
      hide InfoMap, DelaysOk, SortedByTime, Store.Ok, TasksOk, Living;
      while toDelete > 0
        invariant Valid() && tcb[current].stateIn != Some(Termination)
        invariant View() == old(View()).(tasks := Tasks()) && Living(Tasks()) == Living(old(Tasks()))
        invariant taskCount - toDelete == old(taskCount) - old(toDelete)
        invariant forall name :: name != Termination ==> Mem().At(name) == old(Mem()).At(name)
        invariant BarDying(tcb) == BarDying(old(tcb))
      {
        var t := Items(Termination)[0];
        ghost var s := Mem();
        DyingAreListed(Mem(), topReady, delayed, epoch);
        TaskIsOk(tcb, topReady, t);
        RemoveTask(t);
        OthersStay(s, Mem(), t);
      }
      DyingAreListed(Mem(), topReady, delayed, epoch);
      NobodyDying(Mem());
    }

    // vTaskPrioritySet
    method SetPriority(t: Task, p: nat) returns (switchRequired: bool)
      requires Valid() && t in tcb && p < MAX_PRIORITIES
      modifies `lists, `tcb, `topReady
      ensures Valid()
      ensures t in old(Tasks())
      ensures View() == Apply(old(View()), Touch(t,
                old(Tasks())[t].(priority := old(tcb)[t].Ranked().SetBase(p).priority)))
      ensures t in tcb && tcb[t].Ranked() == old(tcb)[t].Ranked().SetBase(p)
      ensures var b, b' := old(tcb)[t], tcb[t];
              && b'.basePriority == p && b'.mutexesHeld == b.mutexesHeld
              && b'.priority == (if b.priority == b.basePriority then p else b.priority)
              && b'.eventValue == (if p != b.basePriority && b.eventValue < VALUE_IN_USE then MAX_PRIORITIES - p
                                   else b.eventValue)
              && tcb == old(tcb)[t := b'] && (p == b.basePriority ==> lists == old(lists))
      ensures p != old(tcb)[t].basePriority ==>
                Moved(old(Mem()), Mem(), Requeued(old(tcb)[t], tcb[t].priority, t))
      ensures switchRequired <==>
        if t == current then p < old(tcb)[t].basePriority
        else old(tcb)[t].basePriority < p && p >= old(tcb)[current].priority
    {
      hide InfoMap, Stepped, DelaysOk, SortedByTime, Store.Ok, TasksOk, Moved, Requeued;
      switchRequired := false;
      InfoAt(tcb, delayed, epoch, t);
      TaskIsOk(tcb, topReady, t);
      var base := tcb[t].basePriority;
      if base != p {
        if base < p {
          switchRequired := t != current && p >= tcb[current].priority;
        } else {
          switchRequired := t == current;
        }
        ChangeRank(t, tcb[t].Ranked().SetBase(p), tcb[t].ValueFor(p), true);
      }
    }

    // The update of a priority, and of the ready list with it
    method ChangeRank(t: Task, r: Rank, v: nat, move: bool)
      requires Valid() && t in tcb && r.priority < MAX_PRIORITIES
      requires !move ==> r.priority == tcb[t].priority
      modifies `lists, `tcb, `topReady
      ensures Valid() && t in old(Tasks())
      ensures View() == Apply(old(View()), Touch(t, old(Tasks())[t].(priority := r.priority)))
      ensures RankChanged(old(tcb), tcb, t, r, v)
      ensures !move ==> lists == old(lists)
      ensures move && old(tcb)[t].stateIn == Some(Ready(old(tcb)[t].priority)) && r.priority != old(tcb)[t].priority ==>
                var q := old(Mem()).At(Ready(r.priority));
                q.Valid() && Mem().At(Ready(r.priority)) == q.InsertEnd(t)
      ensures Moved(old(Mem()), Mem(), if move then Requeued(old(tcb)[t], r.priority, t) else [])
    {
      hide Moved;
      hide InfoMap, Stepped, DelaysOk, SortedByTime, Store.Ok, TasksOk;
      InfoAt(tcb, delayed, epoch, t);
      var s', top' := Rethread(Mem(), topReady, t, r, v, move, delayed, overflow, epoch, taskCount, toDelete);
      Commit(s', top', t, InfoOf(tcb[t], delayed, epoch).(priority := r.priority));
    }

    // xTaskPriorityInherit
    method PriorityInherit(holder: Task) returns (inherited: bool)
      requires Valid() && holder in tcb
      modifies `lists, `tcb, `topReady
      ensures Valid() && holder in old(Tasks()) && holder in tcb
      ensures tcb[holder].Ranked() == old(tcb)[holder].Ranked().Inherit(old(tcb)[current].priority)
      ensures View() == Apply(old(View()), Touch(holder, old(Tasks())[holder].(priority := tcb[holder].priority)))
      ensures inherited <==> old(tcb)[holder].basePriority < old(tcb)[current].priority
                             || old(tcb)[holder].priority < old(tcb)[current].priority
      ensures var b, b', p := old(tcb)[holder], tcb[holder], old(tcb)[current].priority;
              && b'.basePriority == b.basePriority && b'.mutexesHeld == b.mutexesHeld
              && b'.priority == (if b.priority < p then p else b.priority) && tcb == old(tcb)[holder := b']
              && b'.eventValue == (if b.priority < p && b.eventValue < VALUE_IN_USE then MAX_PRIORITIES - p
                                   else b.eventValue)
              && Moved(old(Mem()), Mem(), if b.priority < p then Requeued(b, p, holder) else [])
    {
      hide Moved, Requeued;
      hide InfoMap, Stepped, DelaysOk, SortedByTime, Store.Ok, TasksOk;
      InfoAt(tcb, delayed, epoch, holder);
      TaskIsOk(tcb, topReady, current);
      var p := tcb[current].priority;
      if tcb[holder].priority < p {
        ChangeRank(holder, tcb[holder].Ranked().Inherit(p), tcb[holder].ValueFor(p), true);
        inherited := true;
      } else {
        inherited := tcb[holder].basePriority < p;
        MovedNever(Mem(), Mem());
      }
    }

    // xTaskPriorityDisinherit, by the running task
    method PriorityDisinherit() returns (switchRequired: bool)
      requires Valid() && tcb[current].mutexesHeld > 0 && tcb[current].basePriority < MAX_PRIORITIES
      modifies `lists, `tcb, `topReady
      ensures Valid() && current in old(Tasks())
      ensures tcb[current].Ranked() == old(tcb)[current].Ranked().Disinherit()
      ensures View() == Apply(old(View()), Touch(current, old(Tasks())[current].(priority := tcb[current].priority)))
      ensures switchRequired <==> tcb[current].priority != old(tcb)[current].priority
      ensures var b, b' := old(tcb)[current], tcb[current];
              && b'.mutexesHeld == b.mutexesHeld - 1 && b'.basePriority == b.basePriority
              && b'.priority == (if b.mutexesHeld == 1 then b.basePriority else b.priority)
              && b'.eventValue == (if switchRequired then MAX_PRIORITIES - b.basePriority else b.eventValue)
              && tcb == old(tcb)[current := b']
              && Moved(old(Mem()), Mem(), if switchRequired then Requeued(b, b.basePriority, current) else [])
    {
      hide Moved, Requeued;
      hide InfoMap, Stepped, DelaysOk, SortedByTime, Store.Ok, TasksOk;
      InfoAt(tcb, delayed, epoch, current);
      TaskIsOk(tcb, topReady, current);
      var b := tcb[current];
      switchRequired := b.priority != b.basePriority && b.mutexesHeld == 1;
      ChangeRank(current, b.Ranked().Disinherit(),
                 if switchRequired then MAX_PRIORITIES - b.basePriority else b.eventValue,
                 switchRequired);
    }

    // vTaskPriorityDisinheritAfterTimeout
    method PriorityDisinheritAfterTimeout(holder: Task, highest: nat)
      requires Valid() && holder in tcb && tcb[holder].mutexesHeld > 0
      requires highest < MAX_PRIORITIES && tcb[holder].basePriority < MAX_PRIORITIES
      modifies `lists, `tcb, `topReady
      ensures Valid() && holder in old(Tasks()) && holder in tcb
      ensures tcb[holder].Ranked() == old(tcb)[holder].Ranked().AfterTimeout(highest)
      ensures View() == Apply(old(View()), Touch(holder, old(Tasks())[holder].(priority := tcb[holder].priority)))
      ensures var b, b' := old(tcb)[holder], tcb[holder];
              var use := if b.basePriority < highest then highest else b.basePriority;
              && b'.basePriority == b.basePriority && b'.mutexesHeld == b.mutexesHeld
              && b'.priority == (if b.mutexesHeld == 1 then use else b.priority) && tcb == old(tcb)[holder := b']
              && b'.eventValue == (if b'.priority != b.priority && b.eventValue < VALUE_IN_USE then MAX_PRIORITIES - use
                                   else b.eventValue)
              && Moved(old(Mem()), Mem(),
                       if b'.priority != b.priority then Requeued(b, b'.priority, holder) else [])
    {
      hide Moved, Requeued;
      hide InfoMap, Stepped, DelaysOk, SortedByTime, Store.Ok, TasksOk;
      InfoAt(tcb, delayed, epoch, holder);
      MovedNever(Mem(), Mem());
      var b := tcb[holder];
      var use := if b.basePriority < highest then highest else b.basePriority;
      if b.priority != use && b.mutexesHeld == 1 {
        ChangeRank(holder, b.Ranked().AfterTimeout(highest), b.ValueFor(use), true);
      }
    }

    /** After any of these calls: each task is on exactly one state list, a ready task on the
        list of its priority, the lengths add up to uxCurrentNumberOfTasks, no ready list
        above uxTopReadyPriority has an item, and nobody is pending while the scheduler runs. */
    lemma Partition()
      requires Valid()
      ensures TotalLength(Mem(), STATE_LISTS) == taskCount
      ensures forall t <- tcb :: OnOneList(Mem(), t)
      ensures forall t <- tcb :: forall p :: t in Items(Ready(p)) ==> p == tcb[t].priority
      ensures forall p :: p > topReady ==> Items(Ready(p)) == []
      ensures depth == 0 ==> Items(PendingReady) == []
    {
      hide DelaysOk, SortedByTime, Store.Ok;
      ListsPartitionTasks(Mem(), topReady, taskCount, toDelete);
      forall t, p | t in tcb && t in Items(Ready(p)) ensures p == tcb[t].priority {
        ReadyAtPriority(Mem(), topReady, t, p);
      }
      forall p | p > topReady ensures Items(Ready(p)) == [] {
        NoneAboveTop(Mem(), topReady, p);
      }
    }
  }
}
