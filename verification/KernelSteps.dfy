/** Steps of the scheduler of lib/FreeRTOS/tasks.c on the value of its lists and TCBs, and
    what they mean in absolute time. */
module KernelSteps {
  import opened Rings
  import opened Clocks
  import opened Words
  import opened KernelLists
  import opened Ranks

  const STATE_LISTS: seq<ListName> :=
    [Ready(0), Ready(1), Ready(2), Ready(3), Ready(4), Ready(5), Ready(6),
     DelayedA, DelayedB, Suspended, Termination]

  /** A task sits in a state list, in the ready list of its priority if in a ready list. */
  ghost predicate TaskOk(b: Tcb, top: nat) {
    && Placed(b) && b.stateValue < WRAP && b.priority < MAX_PRIORITIES
    && (b.stateIn.value.Ready? ==> b.stateIn.value.priority == b.priority <= top)
    && (b.stateIn.value.Termination? ==> b.eventIn == None)
  }

  ghost predicate TasksOk(tcb: map<Task, Tcb>, top: nat) {
    forall t <- tcb :: TaskOk(tcb[t], top)
  }

  /** The lists agree with the containers, and the counters with the lists. */
  ghost predicate StoreOk(s: Store, top: nat, count: nat, dying: nat) {
    s.Ok() && TasksOk(s.tcb, top) && count == |s.tcb| && dying == |s.At(Termination).items|
  }

  lemma RehomeStoreOk(s: Store, s': Store, t: Task, name: ListName, top: nat, top': nat,
                      count: nat, dying: nat)
    requires StoreOk(s, top, count, dying) && Rehomed(s, s', t, name) && top <= top'
    requires s.tcb[t].stateIn != Some(Termination) && name != Termination && !HoldsEvents(name)
    requires name.Ready? ==> name.priority == s.tcb[t].priority <= top'
    ensures StoreOk(s', top', count, dying)
  {
    assert s.ListOk(Termination) && !s.On(t, Termination);
    assert s'.tcb.Keys == s.tcb.Keys;
    forall u | u in s'.tcb ensures TaskOk(s'.tcb[u], top') {
      assert TaskOk(s.tcb[u], top);
    }
  }

  /** Both delayed lists are sorted, and no item of the current one is below `low`. */
  ghost predicate DelaysOk(s: Store, delayed: ListName, overflow: ListName, low: nat) {
    && SortedByTime(s.At(delayed).items, s.tcb) && SortedByTime(s.At(overflow).items, s.tcb)
    && forall t <- s.tcb :: s.tcb[t].stateIn == Some(delayed) ==> low <= s.tcb[t].stateValue
  }

  /** What a TCB means in absolute time: items of the current delayed list belong to this
      epoch of the tick count, items of the overflow list to the next. */
  ghost function InfoOf(b: Tcb, delayed: ListName, epoch: nat): Info {
    var status := match b.stateIn {
      case Some(DelayedA) => Sleeping((if delayed.DelayedA? then epoch else epoch + 1) * WRAP + b.stateValue)
      case Some(DelayedB) => Sleeping((if delayed.DelayedB? then epoch else epoch + 1) * WRAP + b.stateValue)
      case Some(Suspended) => Parked
      case Some(Termination) => Dying
      case _ => Runnable
    };
    Info(status, b.eventIn, b.priority)
  }

  ghost function InfoMap(tcb: map<Task, Tcb>, delayed: ListName, epoch: nat): map<Task, Info> {
    map t | t in tcb :: InfoOf(tcb[t], delayed, epoch)
  }

  /** Half-way through the unblocking loop: all but the tasks still on the current delayed
      list are as they will be. */
  ghost predicate PartlyAdvanced(s: Store, delayed: ListName, epoch: nat, tasks: map<Task, Info>, now: nat) {
    && (forall t :: t in s.tcb <==> t in tasks)
    && forall t <- s.tcb ::
         InfoOf(s.tcb[t], delayed, epoch)
           == if t in s.At(delayed).items then tasks[t] else WokenBy(tasks, now)[t]
  }

  /** Half-way through draining the pending-ready list. */
  ghost predicate PartlyDrained(s: Store, delayed: ListName, epoch: nat, tasks: map<Task, Info>) {
    && (forall t :: t in s.tcb <==> t in tasks)
    && forall t <- s.tcb ::
         InfoOf(s.tcb[t], delayed, epoch)
           == if t in s.At(PendingReady).items then tasks[t] else Drained(tasks)[t]
  }

  ghost predicate IsDelayList(name: ListName) {
    name.DelayedA? || name.DelayedB?
  }

  lemma AdvanceStarts(s: Store, delayed: ListName, epoch: nat, tasks: map<Task, Info>, now: nat, top: nat)
    requires s.Ok() && TasksOk(s.tcb, top) && IsDelayList(delayed)
    requires tasks == InfoMap(s.tcb, delayed, epoch) && now < (epoch + 1) * WRAP
    ensures PartlyAdvanced(s, delayed, epoch, tasks, now)
  {
    assert s.ListOk(delayed);
    forall t | t in s.tcb && t !in s.At(delayed).items
      ensures WokenBy(tasks, now)[t] == tasks[t]
    {
      assert !s.On(t, delayed);
      assert TaskOk(s.tcb[t], top);
    }
  }

  lemma AdvanceStep(s: Store, s': Store, delayed: ListName, epoch: nat, tasks: map<Task, Info>, now: nat, t: Task)
    requires s.Ok() && IsDelayList(delayed)
    requires PartlyAdvanced(s, delayed, epoch, tasks, now) && t in s.At(delayed).items && t in s.tcb
    requires epoch * WRAP + s.tcb[t].stateValue <= now
    requires Rehomed(s, s', t, Ready(s.tcb[t].priority))
    ensures PartlyAdvanced(s', delayed, epoch, tasks, now)
  {
    assert s.ListOk(delayed) && s.On(t, delayed);
    WithoutMembers(s.At(delayed).items, t);
  }

  lemma AdvanceEnds(s: Store, delayed: ListName, epoch: nat, tasks: map<Task, Info>, now: nat)
    requires s.Ok() && PartlyAdvanced(s, delayed, epoch, tasks, now) && IsDelayList(delayed)
    requires forall t <- s.tcb :: s.tcb[t].stateIn == Some(delayed) ==>
               now < epoch * WRAP + s.tcb[t].stateValue
    ensures InfoMap(s.tcb, delayed, epoch) == WokenBy(tasks, now)
  {
    assert s.ListOk(delayed);
    forall t | t in s.tcb
      ensures InfoOf(s.tcb[t], delayed, epoch) == WokenBy(tasks, now)[t]
    {
      assert t in s.At(delayed).items ==> s.On(t, delayed);
    }
  }

  lemma DrainStarts(s: Store, delayed: ListName, epoch: nat, tasks: map<Task, Info>)
    requires s.Ok() && tasks == InfoMap(s.tcb, delayed, epoch)
    ensures PartlyDrained(s, delayed, epoch, tasks)
  {
    assert s.ListOk(PendingReady);
    forall t | t in s.tcb && t !in s.At(PendingReady).items
      ensures Drained(tasks)[t] == tasks[t]
    {
      assert !s.On(t, PendingReady);
    }
  }

  lemma DrainStep(s: Store, s': Store, delayed: ListName, epoch: nat, tasks: map<Task, Info>, t: Task)
    requires s.Ok() && PartlyDrained(s, delayed, epoch, tasks)
    requires t in s.At(PendingReady).items && t in s.tcb
    requires Rehomed(s, s', t, Ready(s.tcb[t].priority))
    ensures PartlyDrained(s', delayed, epoch, tasks)
  {
    assert s.ListOk(PendingReady) && s.On(t, PendingReady);
    WithoutMembers(s.At(PendingReady).items, t);
  }

  lemma DrainEnds(s: Store, delayed: ListName, epoch: nat, tasks: map<Task, Info>)
    requires PartlyDrained(s, delayed, epoch, tasks) && s.At(PendingReady).items == []
    ensures InfoMap(s.tcb, delayed, epoch) == Drained(tasks)
  {
  }

  /** Taking a task off its lists keeps both delayed lists sorted. */
  lemma RehomeDelays(s: Store, s': Store, t: Task, name: ListName,
                     delayed: ListName, overflow: ListName, low: nat)
    requires s.Ok() && Rehomed(s, s', t, name)
    requires name != delayed && name != overflow && DelaysOk(s, delayed, overflow, low)
    ensures DelaysOk(s', delayed, overflow, low)
  {
    SortedLose(s.At(delayed).items, s.tcb, s'.tcb, t);
    SortedLose(s.At(overflow).items, s.tcb, s'.tcb, t);
  }

  lemma SortedLose(items: seq<Task>, tcb: map<Task, Tcb>, tcb': map<Task, Tcb>, t: Task)
    requires SortedByTime(items, tcb) && tcb.Keys <= tcb'.Keys
    requires forall u <- tcb :: tcb'[u].stateValue == tcb[u].stateValue
    ensures SortedByTime(Lose(items, t), tcb')
  {
    if t in items {
      SortedWithout(items, tcb', t);
    }
  }

  /** Task `t` is due at `now`, and outranks the running task `cur` or equals it. */
  ghost predicate Preempts(tasks: map<Task, Info>, now: nat, t: Task, cur: Task) {
    && t in tasks && cur in tasks
    && tasks[t].status.Sleeping? && tasks[t].status.wake <= now
    && tasks[t].priority >= tasks[cur].priority
  }

  ghost predicate Preempted(tasks: map<Task, Info>, now: nat, cur: Task) {
    exists t :: Preempts(tasks, now, t, cur)
  }

  lemma HeadIsLeast(s: Store, delayed: ListName, overflow: ListName, top: nat)
    requires s.Ok() && TasksOk(s.tcb, top) && DelaysOk(s, delayed, overflow, 0) && s.At(delayed).items != []
    requires IsDelayList(delayed)
    ensures var t := s.At(delayed).items[0];
            && t in s.tcb && s.tcb[t].stateIn == Some(delayed) && s.tcb[t].stateValue < WRAP
            && DelaysOk(s, delayed, overflow, s.tcb[t].stateValue)
  {
    assert s.ListOk(delayed) && s.On(s.At(delayed).items[0], delayed);
    assert TaskOk(s.tcb[s.At(delayed).items[0]], top);
    forall u | u in s.tcb && s.tcb[u].stateIn == Some(delayed)
      ensures s.tcb[s.At(delayed).items[0]].stateValue <= s.tcb[u].stateValue
    {
      assert s.On(u, delayed);
      assert s.At(delayed).items[Position(s.At(delayed).items, u)] == u;
    }
  }

  lemma DelaysLower(s: Store, delayed: ListName, overflow: ListName, low: nat, low': nat)
    requires DelaysOk(s, delayed, overflow, low) && low' <= low
    ensures DelaysOk(s, delayed, overflow, low')
  {
  }

  lemma EmptyList(s: Store, delayed: ListName, overflow: ListName, low: nat)
    requires s.Ok() && DelaysOk(s, delayed, overflow, 0) && s.At(delayed).items == []
    requires IsDelayList(delayed)
    ensures DelaysOk(s, delayed, overflow, low)
  {
    assert s.ListOk(delayed);
    forall u | u in s.tcb ensures s.tcb[u].stateIn != Some(delayed) {
      assert !s.On(u, delayed);
    }
  }

  /** The tasks due at `now` are those that the loop takes off the front of the list. */
  lemma DueAreFirst(s: Store, delayed: ListName, epoch: nat, tasks: map<Task, Info>, now: nat, top: nat, n: nat,
                    t: Task)
    requires s.Ok() && TasksOk(s.tcb, top) && IsDelayList(delayed)
    requires tasks == InfoMap(s.tcb, delayed, epoch) && now < (epoch + 1) * WRAP
    requires n <= |s.At(delayed).items| && NoneDue(tasks, now, s.At(delayed).items[n..])
    requires t in tasks && tasks[t].status.Sleeping? && tasks[t].status.wake <= now
    ensures exists k :: 0 <= k < n && s.At(delayed).items[k] == t
  {
    assert TaskOk(s.tcb[t], top);
    assert s.ListOk(delayed) && s.On(t, delayed);
    var k := Position(s.At(delayed).items, t);
    assert s.At(delayed).items[n..] == s.At(delayed).items[n..|s.At(delayed).items|];
  }

  ghost predicate NoneDue(tasks: map<Task, Info>, now: nat, items: seq<Task>) {
    forall t <- items ::
      t in tasks && tasks[t].status.Sleeping? && now < tasks[t].status.wake
  }

  /** The next time at which the current delayed list wakes anybody. */
  function HeadTime(s: Store, delayed: ListName): nat {
    var items := s.At(delayed).items;
    if items != [] && items[0] in s.tcb then s.tcb[items[0]].stateValue else MAX_DELAY
  }

  /** Some task of the list is at least as high as task `cur`. */
  ghost predicate SomeoneAbove(items: seq<Task>, tcb: map<Task, Tcb>, cur: Task) {
    exists k :: 0 <= k < |items| && AtLeast(tcb, items[k], cur)
  }

  ghost predicate AtLeast(tcb: map<Task, Tcb>, t: Task, cur: Task) {
    t in tcb && cur in tcb && tcb[t].priority >= tcb[cur].priority
  }

  ghost predicate SamePriorities(tcb: map<Task, Tcb>, tcb': map<Task, Tcb>) {
    tcb'.Keys == tcb.Keys && forall t <- tcb :: tcb'[t].priority == tcb[t].priority
  }

  /** Tasks still on the list, whose head is not due, are all not due. */
  lemma RestNotDue(s: Store, delayed: ListName, overflow: ListName, epoch: nat, tasks: map<Task, Info>, now: nat,
                   low: nat)
    requires s.Ok() && IsDelayList(delayed) && DelaysOk(s, delayed, overflow, low)
    requires PartlyAdvanced(s, delayed, epoch, tasks, now) && now < epoch * WRAP + low
    ensures NoneDue(tasks, now, s.At(delayed).items)
  {
    assert s.ListOk(delayed);
    forall t | t in s.At(delayed).items
      ensures t in tasks && tasks[t].status.Sleeping? && now < tasks[t].status.wake
    {
      assert s.On(t, delayed);
    }
  }

  /** A task due by the next tick is due already, or will be when that tick comes. */
  lemma PreemptedLater(tasks: map<Task, Info>, now: nat, cur: Task)
    requires Preempted(tasks, now + 1, cur)
    ensures Preempted(tasks, now, cur) || Preempted(WokenBy(tasks, now), now + 1, cur)
  {
    var t :| Preempts(tasks, now + 1, t, cur);
    assert Preempts(tasks, now, t, cur) || Preempts(WokenBy(tasks, now), now + 1, t, cur);
  }

  lemma PreemptedStays(tasks: map<Task, Info>, now: nat, cur: Task)
    requires Preempted(tasks, now, cur) || Preempted(WokenBy(tasks, now), now + 1, cur)
    ensures Preempted(tasks, now + 1, cur)
  {
    if Preempted(tasks, now, cur) {
      var t :| Preempts(tasks, now, t, cur);
      assert Preempts(tasks, now + 1, t, cur);
    } else {
      var t :| Preempts(WokenBy(tasks, now), now + 1, t, cur);
      assert Preempts(tasks, now + 1, t, cur);
    }
  }

  /** A task becomes ready: off its lists, and to the end of the ready list of its priority. */
  ghost function Wake(b: Tcb, t: Task): seq<ListOp> {
    OffBoth(b, t) + [ListOp(Ready(b.priority), Add(t))]
  }

  /** Several tasks become ready, in this order. */
  ghost function Wakes(ts: seq<Task>, tcb: map<Task, Tcb>): seq<ListOp> {
    if ts == [] then []
    else (if ts[0] in tcb then Wake(tcb[ts[0]], ts[0]) else []) + Wakes(ts[1..], tcb)
  }

  ghost function Awake(b: Tcb): Tcb {
    b.(stateIn := Some(Ready(b.priority)), eventIn := None)
  }

  ghost function Awoken(tcb: map<Task, Tcb>, ts: seq<Task>): map<Task, Tcb> {
    map t | t in tcb :: if t in ts then Awake(tcb[t]) else tcb[t]
  }

  /** The tasks `ts` become ready, in this order, and nothing else happens. */
  ghost predicate Woke(s: Store, s': Store, ts: seq<Task>) {
    Moved(s, s', Wakes(ts, s.tcb)) && s'.tcb == Awoken(s.tcb, ts)
  }

  lemma WokeThen(s: Store, s1: Store, s2: Store, a: seq<Task>, b: seq<Task>)
    requires Woke(s, s1, a) && Woke(s1, s2, b) && forall t <- b :: t !in a && t in s.tcb
    ensures Woke(s, s2, a + b)
  {
    hide Moved;
    WakesSplit(a, b, s.tcb);
    WakesSame(b, s.tcb, s1.tcb);
    MovedThen(s, s1, s2, Wakes(a, s.tcb), Wakes(b, s.tcb));
  }

  lemma WakesFirst(ts: seq<Task>, tcb: map<Task, Tcb>, name: ListName)
    requires ts != []
    ensures OpsAt(Wakes(ts, tcb), name)
         == (if ts[0] in tcb then OpsAt(Wake(tcb[ts[0]], ts[0]), name) else []) + OpsAt(Wakes(ts[1..], tcb), name)
  {
    if ts[0] in tcb {
      OpsAtSplit(Wake(tcb[ts[0]], ts[0]), Wakes(ts[1..], tcb), name);
    } else {
      assert Wakes(ts, tcb) == Wakes(ts[1..], tcb);
    }
  }

  /** What is done to a list of which none of the tasks is an item, other than a ready list. */
  lemma {:induction false} WakesElsewhere(ts: seq<Task>, tcb: map<Task, Tcb>, name: ListName)
    requires !name.Ready?
    requires forall t <- ts :: t in tcb ==> tcb[t].stateIn != Some(name) && tcb[t].eventIn != Some(name)
    ensures OpsAt(Wakes(ts, tcb), name) == []
  {
    if ts != [] {
      WakesElsewhere(ts[1..], tcb, name);
      WakesFirst(ts, tcb, name);
      if ts[0] in tcb {
        assert ts[0] in ts;
        WakeAt(tcb[ts[0]], ts[0], name);
      }
    }
  }

  lemma WakeAt(b: Tcb, t: Task, name: ListName)
    requires b.stateIn != Some(name) && b.eventIn != Some(name)
    ensures OpsAt(Wake(b, t), name) == if name == Ready(b.priority) then [Add(t)] else []
  {
    OpsAtSplit(OffBoth(b, t), [ListOp(Ready(b.priority), Add(t))], name);
    OpsAtSplit(Off(b.stateIn, t), Off(b.eventIn, t), name);
    assert forall x: ListOp :: [x][1..] == [];
  }

  /** Those of `ts` with priority `p`. */
  ghost function OfPriority(ts: seq<Task>, tcb: map<Task, Tcb>, p: nat): seq<Task> {
    if ts == [] then []
    else (if ts[0] in tcb && tcb[ts[0]].priority == p then [ts[0]] else []) + OfPriority(ts[1..], tcb, p)
  }

  /** A ready list gains the tasks of its priority at its end, in the order in which they are
      woken; its index, and so the turn of everybody else, stays where it is. */
  lemma {:induction false} WakesAtReady(ts: seq<Task>, tcb: map<Task, Tcb>, p: nat)
    requires forall t <- ts :: t in tcb ==> tcb[t].stateIn != Some(Ready(p)) && tcb[t].eventIn != Some(Ready(p))
    ensures OpsAt(Wakes(ts, tcb), Ready(p)) == Adds(OfPriority(ts, tcb, p))
  {
    if ts != [] {
      hide Wakes, Wake, OpsAt, Adds, OfPriority;
      WakesAtReady(ts[1..], tcb, p);
      WakesFirst(ts, tcb, Ready(p));
      AddsFirstOf(ts, tcb, p);
      if ts[0] in tcb {
        assert ts[0] in ts;
        WakeAt(tcb[ts[0]], ts[0], Ready(p));
      }
    } else {
      assert OpsAt([], Ready(p)) == Adds([]);
    }
  }

  lemma AddsFirstOf(ts: seq<Task>, tcb: map<Task, Tcb>, p: nat)
    requires ts != []
    ensures Adds(OfPriority(ts, tcb, p))
         == (if ts[0] in tcb && tcb[ts[0]].priority == p then [Add(ts[0])] else [])
            + Adds(OfPriority(ts[1..], tcb, p))
  {
  }

  lemma {:induction false} WakesSplit(a: seq<Task>, b: seq<Task>, tcb: map<Task, Tcb>)
    ensures Wakes(a + b, tcb) == Wakes(a, tcb) + Wakes(b, tcb)
  {
    if a == [] {
      assert a + b == b;
    } else {
      assert (a + b)[1..] == a[1..] + b;
      WakesSplit(a[1..], b, tcb);
      var first := if a[0] in tcb then Wake(tcb[a[0]], a[0]) else [];
      assert first + (Wakes(a[1..], tcb) + Wakes(b, tcb)) == (first + Wakes(a[1..], tcb)) + Wakes(b, tcb);
    }
  }

  lemma WakesOne(t: Task, tcb: map<Task, Tcb>)
    requires t in tcb
    ensures Wakes([t], tcb) == Wake(tcb[t], t)
  {
    assert [t][1..] == [] && Wakes([], tcb) == [];
  }

  lemma {:induction false} WakesSame(ts: seq<Task>, tcb: map<Task, Tcb>, tcb': map<Task, Tcb>)
    requires forall t <- ts :: t in tcb && t in tcb' && tcb'[t] == tcb[t]
    ensures Wakes(ts, tcb') == Wakes(ts, tcb)
  {
    if ts != [] {
      WakesSame(ts[1..], tcb, tcb');
    }
  }

  /** The next one of distinct tasks becomes ready too. */
  lemma WokenNext(s: Store, s1: Store, s2: Store, ts: seq<Task>, t: Task)
    requires Moved(s, s1, Wakes(ts, s.tcb)) && s1.tcb == Awoken(s.tcb, ts)
    requires t in s.tcb && t !in ts && Moved(s1, s2, Wake(s1.tcb[t], t))
    requires s2.tcb == s1.tcb[t := Awake(s1.tcb[t])]
    ensures Moved(s, s2, Wakes(ts + [t], s.tcb)) && s2.tcb == Awoken(s.tcb, ts + [t])
  {
    hide Moved, Wake;
    WakesSplit(ts, [t], s.tcb);
    WakesOne(t, s.tcb);
    MovedThen(s, s1, s2, Wakes(ts, s.tcb), Wake(s.tcb[t], t));
  }

  ghost predicate IsDue(tasks: map<Task, Info>, t: Task, now: nat) {
    t in tasks && tasks[t].status.Sleeping? && tasks[t].status.wake <= now
  }

  /** Those of `items` whose wake-up time has come, in this order. */
  ghost function DueBy(items: seq<Task>, tasks: map<Task, Info>, now: nat): seq<Task> {
    if items == [] then []
    else (if IsDue(tasks, items[0], now) then [items[0]] else []) + DueBy(items[1..], tasks, now)
  }

  lemma {:induction false} DueSplit(a: seq<Task>, b: seq<Task>, tasks: map<Task, Info>, now: nat)
    ensures DueBy(a + b, tasks, now) == DueBy(a, tasks, now) + DueBy(b, tasks, now)
  {
    if a == [] {
      assert a + b == b;
    } else {
      assert (a + b)[1..] == a[1..] + b;
      DueSplit(a[1..], b, tasks, now);
      var first := if IsDue(tasks, a[0], now) then [a[0]] else [];
      assert first + (DueBy(a[1..], tasks, now) + DueBy(b, tasks, now))
          == (first + DueBy(a[1..], tasks, now)) + DueBy(b, tasks, now);
    }
  }

  lemma {:induction false} AllDue(items: seq<Task>, tasks: map<Task, Info>, now: nat)
    ensures (forall t <- items :: IsDue(tasks, t, now)) ==> DueBy(items, tasks, now) == items
    ensures (forall t <- items :: !IsDue(tasks, t, now)) ==> DueBy(items, tasks, now) == []
  {
    if items != [] {
      AllDue(items[1..], tasks, now);
      assert items[0] in items && [items[0]] + items[1..] == items;
      assert forall t <- items[1..] :: t in items;
    }
  }

  /** A tick preempts the running task just when some task becomes due that is at least as high. */
  lemma PreemptedIs(tasks: map<Task, Info>, now: nat, cur: Task)
    requires cur in tasks
    ensures Preempted(tasks, now, cur)
       <==> exists t :: t in tasks && IsDue(tasks, t, now) && tasks[t].priority >= tasks[cur].priority
  {
    if Preempted(tasks, now, cur) {
      var t :| Preempts(tasks, now, t, cur);
      assert IsDue(tasks, t, now);
    }
    if t :| t in tasks && IsDue(tasks, t, now) && tasks[t].priority >= tasks[cur].priority {
      assert Preempts(tasks, now, t, cur);
    }
  }

  lemma SomeoneAboveIs(items: seq<Task>, tcb: map<Task, Tcb>, cur: Task)
    requires cur in tcb && forall t <- items :: t in tcb
    ensures SomeoneAbove(items, tcb, cur) <==> exists t :: t in items && tcb[t].priority >= tcb[cur].priority
  {
    if t :| t in items && tcb[t].priority >= tcb[cur].priority {
      var k :| 0 <= k < |items| && items[k] == t;
      assert AtLeast(tcb, items[k], cur);
    }
    if SomeoneAbove(items, tcb, cur) {
      var k :| 0 <= k < |items| && AtLeast(tcb, items[k], cur);
      assert items[k] in items;
    }
  }

  /** The next unblock time is the earliest wake-up time of this round of the tick count, or the
      largest value if there is none. */
  lemma HeadTimeIsLeast(s: Store, delayed: ListName, overflow: ListName, top: nat)
    requires s.Ok() && TasksOk(s.tcb, top) && IsDelayList(delayed) && DelaysOk(s, delayed, overflow, 0)
    ensures forall t <- s.tcb :: s.tcb[t].stateIn == Some(delayed) ==> HeadTime(s, delayed) <= s.tcb[t].stateValue
    ensures (exists t :: t in s.tcb && s.tcb[t].stateIn == Some(delayed) && s.tcb[t].stateValue == HeadTime(s, delayed))
            || ((forall t <- s.tcb :: s.tcb[t].stateIn != Some(delayed)) && HeadTime(s, delayed) == MAX_DELAY)
  {
    if s.At(delayed).items == [] {
      EmptyList(s, delayed, overflow, MAX_DELAY + 1);
      assert s.ListOk(delayed);
      forall t | t in s.tcb ensures s.tcb[t].stateIn != Some(delayed) {
        assert !s.On(t, delayed);
      }
    } else {
      HeadIsLeast(s, delayed, overflow, top);
    }
  }

  /** In the middle of a tick that found the tasks as in `tasks`. */
  ghost predicate MidTick(s: Store, delayed: ListName, overflow: ListName, epoch: nat, tasks: map<Task, Info>,
                          now: nat)
  {
    && DelaysOk(s, delayed, overflow, 0) && PartlyAdvanced(s, delayed, epoch, tasks, now)
    && IsDelayList(delayed) && IsDelayList(overflow)
  }

  // Off the delayed list and the event list, and prvAddTaskToReadyList
  method Unblock(s: Store, top: nat, t: Task, ghost count: nat, ghost dying: nat)
    returns (s': Store, top': nat)
    requires StoreOk(s, top, count, dying) && top < MAX_PRIORITIES
    requires t in s.tcb && s.tcb[t].stateIn != Some(Termination)
    ensures StoreOk(s', top', count, dying) && top <= top' < MAX_PRIORITIES
    ensures Rehomed(s, s', t, Ready(s.tcb[t].priority)) && Moved(s, s', Wake(s.tcb[t], t))
  {
    hide Moved;
    assert TaskOk(s.tcb[t], top);
    s' := Rehome(s, t, Ready(s.tcb[t].priority));
    top' := if s.tcb[t].priority > top then s.tcb[t].priority else top;
    RehomeStoreOk(s, s', t, Ready(s.tcb[t].priority), top, top', count, dying);
  }

  // One round of the loop of xTaskIncrementTick
  method UnblockHead(s: Store, top: nat, delayed: ListName, ghost overflow: ListName, ghost epoch: nat,
                     current: Task, ghost count: nat, ghost dying: nat, ghost tasks: map<Task, Info>, ghost now: nat)
    returns (s': Store, top': nat, preempts: bool)
    requires StoreOk(s, top, count, dying) && top < MAX_PRIORITIES && current in s.tcb
    requires MidTick(s, delayed, overflow, epoch, tasks, now)
    requires s.At(delayed).items != [] && s.At(delayed).items[0] in s.tcb
    requires epoch * WRAP + s.tcb[s.At(delayed).items[0]].stateValue <= now
    ensures StoreOk(s', top', count, dying) && top' < MAX_PRIORITIES && current in s'.tcb
    ensures MidTick(s', delayed, overflow, epoch, tasks, now)
    ensures s'.At(delayed).items == s.At(delayed).items[1..]
    ensures s'.At(PendingReady).items == Lose(s.At(PendingReady).items, s.At(delayed).items[0])
    ensures preempts <==> Preempts(tasks, now, s.At(delayed).items[0], current)
    ensures var t := s.At(delayed).items[0];
            && Moved(s, s', Wake(s.tcb[t], t)) && s'.tcb == s.tcb[t := Awake(s.tcb[t])]
            && IsDue(tasks, t, now)
  {
    hide Moved, Wake, DelaysOk, PartlyAdvanced, Store.Ok, TasksOk, IsDue, Preempts;
    var t := s.At(delayed).items[0];
    ListIs(s, delayed);
    LoseHead(s.At(delayed).items);
    DuePreempts(s, delayed, epoch, tasks, now, t, current);
    preempts := s.tcb[t].priority >= s.tcb[current].priority;
    s', top' := Unblock(s, top, t, count, dying);
    AdvanceStep(s, s', delayed, epoch, tasks, now, t);
    RehomeDelays(s, s', t, Ready(s.tcb[t].priority), delayed, overflow, 0);
  }

  lemma DuePreempts(s: Store, delayed: ListName, epoch: nat, tasks: map<Task, Info>, now: nat, t: Task, cur: Task)
    requires s.Ok() && PartlyAdvanced(s, delayed, epoch, tasks, now) && IsDelayList(delayed)
    requires t in s.tcb && cur in s.tcb && t in s.At(delayed).items
    requires epoch * WRAP + s.tcb[t].stateValue <= now
    ensures Preempts(tasks, now, t, cur) <==> s.tcb[t].priority >= s.tcb[cur].priority
    ensures IsDue(tasks, t, now)
  {
    assert s.ListOk(delayed) && s.On(t, delayed);
  }

  /** The clock at the start of the loop, which `s` stands for. */
  ghost predicate Shows(s: Store, delayed: ListName, epoch: nat, tasks: map<Task, Info>, now: nat) {
    tasks == InfoMap(s.tcb, delayed, epoch) && epoch * WRAP <= now < (epoch + 1) * WRAP
  }

  lemma AdvanceDone(s: Store, delayed: ListName, overflow: ListName, epoch: nat, tasks: map<Task, Info>, now: nat,
                    low: nat)
    requires s.Ok() && MidTick(s, delayed, overflow, epoch, tasks, now)
    requires DelaysOk(s, delayed, overflow, low) && now < epoch * WRAP + low
    ensures InfoMap(s.tcb, delayed, epoch) == WokenBy(tasks, now)
    ensures NoneDue(tasks, now, s.At(delayed).items)
  {
    AdvanceEnds(s, delayed, epoch, tasks, now);
    RestNotDue(s, delayed, overflow, epoch, tasks, now, low);
  }

  // The test of that loop: the next unblock time if nothing more is due
  method NothingMoreDue(s: Store, ghost top: nat, delayed: ListName, ghost overflow: ListName, tick: nat)
    returns (done: bool, next: nat)
    requires s.Ok() && TasksOk(s.tcb, top) && IsDelayList(delayed) && DelaysOk(s, delayed, overflow, 0)
    requires tick < WRAP
    ensures next == HeadTime(s, delayed) <= MAX_DELAY
    ensures done ==> DelaysOk(s, delayed, overflow, tick + 1) && DelaysOk(s, delayed, overflow, next)
    ensures !done ==> s.At(delayed).items != [] && s.At(delayed).items[0] in s.tcb
                      && s.tcb[s.At(delayed).items[0]].stateValue <= tick
  {
    hide DelaysOk, TasksOk, Store.Ok;
    if s.At(delayed).items == [] {
      EmptyList(s, delayed, overflow, tick + 1);
      EmptyList(s, delayed, overflow, MAX_DELAY);
      done, next := true, MAX_DELAY;
    } else {
      HeadIsLeast(s, delayed, overflow, top);
      next := s.tcb[s.At(delayed).items[0]].stateValue;
      done := tick < next;
      if done {
        DelaysLower(s, delayed, overflow, next, tick + 1);
      }
    }
  }

  // The loop of xTaskIncrementTick that empties the current delayed list of what is due
  method UnblockExpired(s: Store, top: nat, delayed: ListName, ghost overflow: ListName,
                        tick: nat, ghost epoch: nat, current: Task,
                        ghost count: nat, ghost dying: nat, ghost tasks: map<Task, Info>, ghost now: nat)
    returns (s': Store, top': nat, next: nat, switchRequired: bool)
    requires StoreOk(s, top, count, dying) && top < MAX_PRIORITIES && current in s.tcb
    requires IsDelayList(delayed) && IsDelayList(overflow) && DelaysOk(s, delayed, overflow, 0)
    requires delayed != overflow
    requires Shows(s, delayed, epoch, tasks, now) && now == epoch * WRAP + tick
    ensures StoreOk(s', top', count, dying) && top' < MAX_PRIORITIES && current in s'.tcb
    ensures DelaysOk(s', delayed, overflow, tick + 1) && DelaysOk(s', delayed, overflow, next)
    ensures next == HeadTime(s', delayed) <= MAX_DELAY
    ensures InfoMap(s'.tcb, delayed, epoch) == WokenBy(tasks, now)
    ensures s.At(PendingReady).items == [] ==> s'.At(PendingReady).items == []
    ensures switchRequired <==> Preempted(tasks, now, current)
    ensures Ticked(s, s', Agenda(s, delayed, overflow), Agenda(s', delayed, overflow),
                   DueBy(Agenda(s, delayed, overflow), tasks, now))
  {
    hide Moved, Wakes, Wake, Awoken, Awake, IsDue, DueBy;
    hide InfoMap, WokenBy, PartlyAdvanced, TasksOk, DelaysOk, Store.Ok, Preempts, Preempted, NoneDue, HeadTime;
    s', top', switchRequired := s, top, false;
    ghost var items, n := s.At(delayed).items, 0;
    AdvanceStarts(s, delayed, epoch, tasks, now, top);
    NobodyWoken(s, items);
    ListIs(s, delayed);
    while true
      invariant StoreOk(s', top', count, dying) && top' < MAX_PRIORITIES && current in s'.tcb
      invariant MidTick(s', delayed, overflow, epoch, tasks, now)
      invariant s.At(PendingReady).items == [] ==> s'.At(PendingReady).items == []
      invariant n <= |items| && s'.At(delayed).items == items[n..]
      invariant Moved(s, s', Wakes(items[..n], s.tcb)) && s'.tcb == Awoken(s.tcb, items[..n])
      invariant forall t <- items[..n] :: IsDue(tasks, t, now)
      invariant switchRequired <==> exists k :: 0 <= k < n && Preempts(tasks, now, items[k], current)
      decreases |s'.At(delayed).items|
    {
      var done;
      done, next := NothingMoreDue(s', top', delayed, overflow, tick);
      if done {
        break;
      }
      var preempts;
      ghost var s1 := s';
      s', top', preempts := UnblockHead(s', top', delayed, overflow, epoch, current, count, dying, tasks, now);
      assert items[n] in items;
      HeadWoken(s, s1, s', items, n);
      switchRequired := switchRequired || preempts;
      n := n + 1;
    }
    AdvanceDone(s', delayed, overflow, epoch, tasks, now, tick + 1);
    DueAreSwitched(s, delayed, epoch, tasks, now, top, n, current);
    FirstAreDue(items, n, tasks, now);
    AgendaTicked(s, s', delayed, overflow, epoch, tasks, now, top, items[..n]);
  }

  lemma ListIs(s: Store, name: ListName)
    requires s.Ok()
    ensures Distinct(s.At(name).items) && forall t <- s.At(name).items :: s.On(t, name)
  {
    assert s.ListOk(name);
  }

  /** What is on the overflow list is not due in this epoch, and stays there. */
  lemma OverflowStays(s: Store, s': Store, delayed: ListName, overflow: ListName, epoch: nat, tasks: map<Task, Info>,
                      now: nat, top: nat, due: seq<Task>)
    requires s.Ok() && TasksOk(s.tcb, top) && IsDelayList(delayed) && IsDelayList(overflow) && delayed != overflow
    requires Shows(s, delayed, epoch, tasks, now) && Woke(s, s', due) && forall t <- due :: t in s.At(delayed).items
    ensures DueBy(s.At(overflow).items, tasks, now) == [] && s'.At(overflow) == s.At(overflow)
  {
    ListIs(s, overflow);
    ListIs(s, delayed);
    forall t | t in s.At(overflow).items ensures !IsDue(tasks, t, now) {
      assert s.On(t, overflow);
    }
    AllDue(s.At(overflow).items, tasks, now);
    forall t | t in due && t in s.tcb
      ensures s.tcb[t].stateIn != Some(overflow) && s.tcb[t].eventIn != Some(overflow)
    {
      TaskIsOk(s.tcb, top, t);
      assert s.On(t, delayed);
    }
    WakesElsewhere(due, s.tcb, overflow);
    assert MovedAt(s, s', Wakes(due, s.tcb), overflow);
  }

  /** The sleepers in the order in which they will wake: those of this round of the tick
      count, then those of the next. */
  ghost function Agenda(s: Store, delayed: ListName, overflow: ListName): seq<Task> {
    s.At(delayed).items + s.At(overflow).items
  }

  /** The tasks `due` have become ready, in this order, and were the first of the agenda. */
  ghost predicate Ticked(s: Store, s': Store, agenda: seq<Task>, agenda': seq<Task>, due: seq<Task>) {
    Woke(s, s', due) && |due| <= |agenda| && due == agenda[..|due|] && agenda' == agenda[|due|..]
  }

  ghost predicate AllSleep(items: seq<Task>, tasks: map<Task, Info>) {
    forall t <- items :: t in tasks && tasks[t].status.Sleeping?
  }

  lemma {:induction false} DueAreDue(items: seq<Task>, tasks: map<Task, Info>, now: nat)
    ensures forall t <- DueBy(items, tasks, now) :: IsDue(tasks, t, now) && t in items
  {
    if items != [] {
      DueAreDue(items[1..], tasks, now);
    }
  }

  lemma {:induction false} DueSame(items: seq<Task>, tasks: map<Task, Info>, tasks': map<Task, Info>, now: nat)
    requires forall t <- items :: t in tasks && t in tasks' && tasks'[t] == tasks[t]
    ensures DueBy(items, tasks', now) == DueBy(items, tasks, now)
  {
    if items != [] {
      DueSame(items[1..], tasks, tasks', now);
    }
  }

  /** One tick after others. */
  lemma TickedThen(s: Store, s1: Store, s2: Store, a: seq<Task>, a1: seq<Task>, a2: seq<Task>,
                   tasks: map<Task, Info>, n: nat)
    requires Ticked(s, s1, a, a1, DueBy(a, tasks, n))
    requires Ticked(s1, s2, a1, a2, DueBy(a1, WokenBy(tasks, n), n + 1))
    requires AllSleep(a1, WokenBy(tasks, n)) && forall t <- a :: t in s.tcb
    ensures Ticked(s, s2, a, a2, DueBy(a, tasks, n + 1))
  {
    hide Woke, DueBy;
    var d1, d2 := DueBy(a, tasks, n), DueBy(a1, WokenBy(tasks, n), n + 1);
    DueAreDue(a, tasks, n);
    DueAreDue(a1, WokenBy(tasks, n), n + 1);
    forall t | t in d2 ensures t !in d1 && t in s.tcb {
      assert t in a1 && t in a;
    }
    WokeThen(s, s1, s2, d1, d2);
    DueTwice(a, a1, tasks, n);
    PrefixTwice(a, d1, d2);
  }

  lemma DueTwice(a: seq<Task>, a1: seq<Task>, tasks: map<Task, Info>, n: nat)
    requires var d := DueBy(a, tasks, n); |d| <= |a| && d == a[..|d|] && a1 == a[|d|..]
    requires AllSleep(a1, WokenBy(tasks, n))
    ensures DueBy(a, tasks, n + 1) == DueBy(a, tasks, n) + DueBy(a1, WokenBy(tasks, n), n + 1)
  {
    hide DueBy;
    var d := DueBy(a, tasks, n);
    DueAreDue(a, tasks, n);
    assert a == d + a1;
    DueSplit(d, a1, tasks, n + 1);
    AllDue(d, tasks, n + 1);
    DueSame(a1, tasks, WokenBy(tasks, n), n + 1);
  }

  lemma PrefixTwice<T>(a: seq<T>, b: seq<T>, c: seq<T>)
    requires |b| <= |a| && b == a[..|b|] && |c| <= |a[|b|..]| && c == a[|b|..][..|c|]
    ensures |b + c| <= |a| && b + c == a[..|b + c|] && a[|b + c|..] == a[|b|..][|c|..]
  {
  }

  /** The pending-ready list, and then the ticks that were held back. */
  lemma PendingThenDue(s: Store, s1: Store, s2: Store, pending: seq<Task>, due: seq<Task>, tasks: map<Task, Info>)
    requires Woke(s, s1, pending) && Woke(s1, s2, due)
    requires forall t <- due :: t in s1.tcb && t in tasks && tasks[t].status.Sleeping?
    requires forall t <- pending :: t in tasks && tasks[t].status.Runnable?
    ensures Woke(s, s2, pending + due)
  {
    hide Moved, Wakes;
    assert s1.tcb.Keys == s.tcb.Keys;
    WokeThen(s, s1, s2, pending, due);
  }

  lemma AgendaSleeps(s: Store, delayed: ListName, overflow: ListName, epoch: nat)
    requires s.Ok() && IsDelayList(delayed) && IsDelayList(overflow)
    ensures AllSleep(Agenda(s, delayed, overflow), InfoMap(s.tcb, delayed, epoch))
    ensures forall t <- Agenda(s, delayed, overflow) :: t in s.tcb
  {
    ListIs(s, delayed);
    ListIs(s, overflow);
  }

  lemma FirstOfTwo(a: seq<Task>, b: seq<Task>, n: nat)
    requires n <= |a|
    ensures (a + b)[..n] == a[..n] && (a + b)[n..] == a[n..] + b
  {
  }

  lemma NobodyWakes(s: Store)
    requires s.Ok()
    ensures Woke(s, s, [])
  {
    MovedNever(s, s);
  }

  lemma AgendaTicked(s: Store, s': Store, delayed: ListName, overflow: ListName, epoch: nat, tasks: map<Task, Info>,
                     now: nat, top: nat, due: seq<Task>)
    requires s.Ok() && TasksOk(s.tcb, top) && IsDelayList(delayed) && IsDelayList(overflow) && delayed != overflow
    requires Shows(s, delayed, epoch, tasks, now) && Woke(s, s', due)
    requires due == DueBy(s.At(delayed).items, tasks, now)
    requires |due| <= |s.At(delayed).items| && due == s.At(delayed).items[..|due|]
    requires s'.At(delayed).items == s.At(delayed).items[|due|..]
    ensures Ticked(s, s', Agenda(s, delayed, overflow), Agenda(s', delayed, overflow),
                   DueBy(Agenda(s, delayed, overflow), tasks, now))
  {
    hide Woke, DueBy, TasksOk, Store.Ok, Shows;
    OverflowStays(s, s', delayed, overflow, epoch, tasks, now, top, due);
    DueSplit(s.At(delayed).items, s.At(overflow).items, tasks, now);
    FirstOfTwo(s.At(delayed).items, s.At(overflow).items, |due|);
    assert DueBy(Agenda(s, delayed, overflow), tasks, now) == due + [] == due;
  }

  lemma NobodyTicked(s: Store, delayed: ListName, overflow: ListName, tasks: map<Task, Info>, now: nat)
    requires s.Ok() && WokenBy(tasks, now) == tasks
    ensures Ticked(s, s, Agenda(s, delayed, overflow), Agenda(s, delayed, overflow),
                   DueBy(Agenda(s, delayed, overflow), tasks, now))
  {
    hide Woke, DueBy, Store.Ok;
    NobodyDue(Agenda(s, delayed, overflow), tasks, now);
    NobodyWakes(s);
  }

  lemma NobodyDue(items: seq<Task>, tasks: map<Task, Info>, now: nat)
    requires WokenBy(tasks, now) == tasks
    ensures DueBy(items, tasks, now) == []
  {
    forall t | t in items ensures !IsDue(tasks, t, now) {
      if t in tasks {
        assert WokenBy(tasks, now)[t] == tasks[t];
      }
    }
    AllDue(items, tasks, now);
  }

  lemma NobodyWoken(s: Store, items: seq<Task>)
    requires s.Ok()
    ensures Moved(s, s, Wakes(items[..0], s.tcb)) && s.tcb == Awoken(s.tcb, items[..0])
  {
    MovedNever(s, s);
  }

  lemma HeadWoken(s: Store, s1: Store, s2: Store, items: seq<Task>, n: nat)
    requires n < |items| && Distinct(items) && items[n] in s.tcb
    requires Moved(s, s1, Wakes(items[..n], s.tcb)) && s1.tcb == Awoken(s.tcb, items[..n])
    requires Moved(s1, s2, Wake(s1.tcb[items[n]], items[n])) && s2.tcb == s1.tcb[items[n] := Awake(s1.tcb[items[n]])]
    ensures Moved(s, s2, Wakes(items[..n + 1], s.tcb)) && s2.tcb == Awoken(s.tcb, items[..n + 1])
  {
    DistinctAt(items, n);
    assert items[n] !in items[..n];
    WokenNext(s, s1, s2, items[..n], items[n]);
    assert items[..n] + [items[n]] == items[..n + 1];
  }

  lemma FirstAreDue(items: seq<Task>, n: nat, tasks: map<Task, Info>, now: nat)
    requires n <= |items| && (forall t <- items[..n] :: IsDue(tasks, t, now)) && NoneDue(tasks, now, items[n..])
    ensures DueBy(items, tasks, now) == items[..n]
  {
    assert items[..n] + items[n..] == items;
    DueSplit(items[..n], items[n..], tasks, now);
    AllDue(items[..n], tasks, now);
    AllDue(items[n..], tasks, now);
  }

  lemma DueAreSwitched(s: Store, delayed: ListName, epoch: nat, tasks: map<Task, Info>, now: nat,
                       top: nat, n: nat, cur: Task)
    requires s.Ok() && TasksOk(s.tcb, top) && IsDelayList(delayed) && Shows(s, delayed, epoch, tasks, now)
    requires n <= |s.At(delayed).items| && NoneDue(tasks, now, s.At(delayed).items[n..])
    ensures Preempted(tasks, now, cur)
       <==> exists k :: 0 <= k < n && Preempts(tasks, now, s.At(delayed).items[k], cur)
  {
    forall t | Preempts(tasks, now, t, cur)
      ensures exists k :: 0 <= k < n && Preempts(tasks, now, s.At(delayed).items[k], cur)
    {
      DueAreFirst(s, delayed, epoch, tasks, now, top, n, t);
    }
  }

  lemma AtLeastSame(tcb: map<Task, Tcb>, tcb': map<Task, Tcb>, t: Task, cur: Task)
    requires SamePriorities(tcb, tcb')
    ensures AtLeast(tcb, t, cur) <==> AtLeast(tcb', t, cur)
  {
  }

  // One round of that loop
  method UnblockPending(s: Store, top: nat, ghost delayed: ListName, ghost overflow: ListName, ghost epoch: nat,
                        current: Task, ghost count: nat, ghost dying: nat, ghost low: nat,
                        ghost tasks: map<Task, Info>)
    returns (s': Store, top': nat, above: bool)
    requires StoreOk(s, top, count, dying) && top < MAX_PRIORITIES && current in s.tcb
    requires IsDelayList(delayed) && IsDelayList(overflow) && DelaysOk(s, delayed, overflow, low)
    requires PartlyDrained(s, delayed, epoch, tasks) && s.At(PendingReady).items != []
    ensures StoreOk(s', top', count, dying) && top' < MAX_PRIORITIES && current in s'.tcb
    ensures DelaysOk(s', delayed, overflow, low) && PartlyDrained(s', delayed, epoch, tasks)
    ensures s'.At(PendingReady).items == s.At(PendingReady).items[1..] && SamePriorities(s.tcb, s'.tcb)
    ensures above <==> AtLeast(s'.tcb, s.At(PendingReady).items[0], current)
    ensures var t := s.At(PendingReady).items[0];
            && t in s.tcb && Moved(s, s', Wake(s.tcb[t], t)) && s'.tcb == s.tcb[t := Awake(s.tcb[t])]
            && forall name :: IsDelayList(name) ==> s'.At(name).items == Lose(s.At(name).items, t)
  {
    hide InfoMap, Drained, DelaysOk, Moved, Wake;
    var t := s.At(PendingReady).items[0];
    assert s.ListOk(PendingReady) && s.On(t, PendingReady);
    assert TaskOk(s.tcb[t], top);
    LoseHead(s.At(PendingReady).items);
    s', top' := Unblock(s, top, t, count, dying);
    DrainStep(s, s', delayed, epoch, tasks, t);
    RehomeDelays(s, s', t, Ready(s.tcb[t].priority), delayed, overflow, low);
    above := s'.tcb[t].priority >= s'.tcb[current].priority;
  }

  /** The same tasks become due, in the same order. */
  ghost predicate SameDue(s: Store, s': Store, tasks: map<Task, Info>) {
    forall name, now {:trigger DueBy(s'.At(name).items, tasks, now)} :: IsDelayList(name) ==>
      DueBy(s'.At(name).items, tasks, now) == DueBy(s.At(name).items, tasks, now)
  }

  lemma {:induction false} LoseNotDue(items: seq<Task>, t: Task, tasks: map<Task, Info>, now: nat)
    requires !IsDue(tasks, t, now)
    ensures DueBy(Lose(items, t), tasks, now) == DueBy(items, tasks, now)
  {
    if t in items {
      var p := Position(items, t);
      assert items == items[..p] + ([t] + items[p + 1..]);
      DueSplit(items[..p], [t] + items[p + 1..], tasks, now);
      DueSplit([t], items[p + 1..], tasks, now);
      DueSplit(items[..p], items[p + 1..], tasks, now);
      AllDue([t], tasks, now);
      assert DueBy(items, tasks, now) == DueBy(items[..p], tasks, now) + ([] + DueBy(items[p + 1..], tasks, now));
    }
  }

  /** A task taken off the pending-ready list is not due any more, wherever it was. */
  lemma DrainedNotDue(s: Store, s1: Store, s2: Store, tasks: map<Task, Info>, delayed: ListName, epoch: nat, t: Task)
    requires SameDue(s, s1, Drained(tasks)) && PartlyDrained(s1, delayed, epoch, tasks) && s1.Ok()
    requires t in s1.tcb && t in s1.At(PendingReady).items
    requires forall name :: IsDelayList(name) ==> s2.At(name).items == Lose(s1.At(name).items, t)
    ensures SameDue(s, s2, Drained(tasks))
  {
    ListIs(s1, PendingReady);
    forall name, now | IsDelayList(name)
      ensures DueBy(s2.At(name).items, Drained(tasks), now) == DueBy(s.At(name).items, Drained(tasks), now)
    {
      LoseNotDue(s1.At(name).items, t, Drained(tasks), now);
    }
  }

  // The loop of xTaskResumeAll over xPendingReadyList
  method DrainPending(s: Store, top: nat, delayed: ListName, ghost overflow: ListName,
                      ghost epoch: nat, current: Task, ghost count: nat, ghost dying: nat,
                      next: nat, ghost low: nat, ghost tasks: map<Task, Info>)
    returns (s': Store, top': nat, next': nat, mustYield: bool)
    requires StoreOk(s, top, count, dying) && top < MAX_PRIORITIES && current in s.tcb
    requires IsDelayList(delayed) && IsDelayList(overflow) && DelaysOk(s, delayed, overflow, low)
    requires DelaysOk(s, delayed, overflow, next) && next <= MAX_DELAY
    requires tasks == InfoMap(s.tcb, delayed, epoch)
    ensures StoreOk(s', top', count, dying) && top' < MAX_PRIORITIES && current in s'.tcb
    ensures DelaysOk(s', delayed, overflow, low)
    ensures DelaysOk(s', delayed, overflow, next') && next' <= MAX_DELAY
    ensures InfoMap(s'.tcb, delayed, epoch) == Drained(tasks)
    ensures s'.At(PendingReady).items == []
    ensures next' == if s.At(PendingReady).items == [] then next else HeadTime(s', delayed)
    ensures mustYield <==> SomeoneAbove(s.At(PendingReady).items, s.tcb, current)
    ensures Woke(s, s', s.At(PendingReady).items)
    ensures SameDue(s, s', Drained(tasks))
  {
    hide Moved, Wakes, Wake, Awoken, Awake, Lose, DueBy;
    s', top', next', mustYield := s, top, next, false;
    hide InfoMap, Drained, DelaysOk, TasksOk, Store.Ok, AtLeast, PartlyDrained;
    var moved := false;
    ghost var items, n := s.At(PendingReady).items, 0;
    DrainStarts(s, delayed, epoch, tasks);
    NobodyWoken(s, items);
    ListIs(s, PendingReady);
    while s'.At(PendingReady).items != []
      invariant StoreOk(s', top', count, dying) && top' < MAX_PRIORITIES && current in s'.tcb
      invariant DelaysOk(s', delayed, overflow, low)
      invariant PartlyDrained(s', delayed, epoch, tasks) && SamePriorities(s.tcb, s'.tcb)
      invariant n <= |items| && s'.At(PendingReady).items == items[n..] && (moved <==> n > 0)
      invariant !moved ==> s' == s
      invariant Moved(s, s', Wakes(items[..n], s.tcb)) && s'.tcb == Awoken(s.tcb, items[..n])
      invariant SameDue(s, s', Drained(tasks))
      invariant mustYield <==> exists k :: 0 <= k < n && AtLeast(s.tcb, items[k], current)
      decreases |s'.At(PendingReady).items|
    {
      ghost var s0 := s';
      var t, above;
      t := s'.At(PendingReady).items[0];
      s', top', above := UnblockPending(s', top', delayed, overflow, epoch, current, count, dying, low, tasks);
      AtLeastSame(s.tcb, s'.tcb, t, current);
      HeadWoken(s, s0, s', items, n);
      DrainedNotDue(s, s0, s', tasks, delayed, epoch, t);
      moved := true;
      mustYield := mustYield || above;
      n := n + 1;
    }
    DrainEnds(s', delayed, epoch, tasks);
    assert items[..n] == items;
    if moved {
      next' := NextWakeTime(s', delayed, overflow, low, top');
    }
  }

  /** When the tick count wraps, the current delayed list is empty; the lists then change
      places without a change of meaning. */
  lemma WrapSwitches(s: Store, delayed: ListName, overflow: ListName, epoch: nat, top: nat)
    requires s.Ok() && TasksOk(s.tcb, top) && DelaysOk(s, delayed, overflow, WRAP)
    requires IsDelayList(delayed) && IsDelayList(overflow) && delayed != overflow
    ensures s.At(delayed).items == []
    ensures DelaysOk(s, overflow, delayed, 0)
    ensures InfoMap(s.tcb, overflow, epoch + 1) == InfoMap(s.tcb, delayed, epoch)
  {
    if s.At(delayed).items != [] {
      HeadIsLeast(s, delayed, overflow, top);
    }
    assert s.ListOk(delayed);
    forall t | t in s.tcb
      ensures InfoOf(s.tcb[t], overflow, epoch + 1) == InfoOf(s.tcb[t], delayed, epoch)
    {
      assert TaskOk(s.tcb[t], top) && !s.On(t, delayed);
    }
  }

  /** Before the next unblock time, a tick changes nothing but the time. */
  lemma NothingDue(s: Store, delayed: ListName, overflow: ListName, epoch: nat, tasks: map<Task, Info>, now: nat,
                   top: nat,
                   tick: nat, next: nat)
    requires s.Ok() && TasksOk(s.tcb, top) && IsDelayList(delayed)
    requires DelaysOk(s, delayed, overflow, next) && tick < next
    requires Shows(s, delayed, epoch, tasks, now) && now == epoch * WRAP + tick
    ensures InfoMap(s.tcb, delayed, epoch) == WokenBy(tasks, now)
    ensures DelaysOk(s, delayed, overflow, tick + 1)
    ensures forall cur :: !Preempted(tasks, now, cur)
  {
    AdvanceStarts(s, delayed, epoch, tasks, now, top);
    AdvanceEnds(s, delayed, epoch, tasks, now);
    RestNotDue(s, delayed, overflow, epoch, tasks, now, next);
    assert s.At(delayed).items[0..] == s.At(delayed).items;
    forall cur ensures !Preempted(tasks, now, cur) {
      DueAreSwitched(s, delayed, epoch, tasks, now, top, 0, cur);
    }
  }

  // prvResetNextTaskUnblockTime
  method NextWakeTime(s: Store, delayed: ListName, ghost overflow: ListName, ghost low: nat, ghost top: nat)
    returns (next: nat)
    requires s.Ok() && TasksOk(s.tcb, top) && IsDelayList(delayed) && DelaysOk(s, delayed, overflow, low)
    ensures DelaysOk(s, delayed, overflow, next) && next == HeadTime(s, delayed) <= MAX_DELAY
  {
    if s.At(delayed).items == [] {
      EmptyList(s, delayed, overflow, MAX_DELAY);
      next := MAX_DELAY;
    } else {
      HeadIsLeast(s, delayed, overflow, top);
      next := s.tcb[s.At(delayed).items[0]].stateValue;
    }
  }

  lemma NobodyLate(s: Store, delayed: ListName, overflow: ListName, epoch: nat, top: nat,
                   tick: nat, tasks: map<Task, Info>, now: nat)
    requires s.Ok() && TasksOk(s.tcb, top) && IsDelayList(delayed)
    requires DelaysOk(s, delayed, overflow, tick + 1)
    requires Shows(s, delayed, epoch, tasks, now) && now == epoch * WRAP + tick
    ensures forall t <- tasks :: tasks[t].status.Sleeping? ==> now < tasks[t].status.wake
    ensures WokenBy(tasks, now) == tasks
  {
    forall t | t in tasks && tasks[t].status.Sleeping?
      ensures now < tasks[t].status.wake
    {
      assert TaskOk(s.tcb[t], top);
    }
  }

  lemma InfoUpdate(tcb: map<Task, Tcb>, t: Task, b: Tcb, delayed: ListName, epoch: nat)
    ensures InfoMap(tcb[t := b], delayed, epoch)
         == InfoMap(tcb, delayed, epoch)[t := InfoOf(b, delayed, epoch)]
  {
  }

  /** One TCB changes, and of the state lists at most those of live tasks. */
  lemma StoreTouched(s: Store, s': Store, t: Task, b: Tcb, top: nat, top': nat, count: nat, dying: nat)
    requires StoreOk(s, top, count, dying) && s'.Ok() && t in s.tcb && s'.tcb == s.tcb[t := b]
    requires top <= top' && TaskOk(b, top')
    requires s'.At(Termination).items == s.At(Termination).items
    ensures StoreOk(s', top', count, dying)
  {
    assert s'.tcb.Keys == s.tcb.Keys;
    forall u | u in s'.tcb ensures TaskOk(s'.tcb[u], top') {
      assert u != t ==> TaskOk(s.tcb[u], top);
    }
  }

  /** One TCB changes whose task is on neither delayed list, before or after. */
  lemma DelaysTouched(s: Store, s': Store, t: Task, b: Tcb, delayed: ListName, overflow: ListName, low: nat)
    requires s.Ok() && DelaysOk(s, delayed, overflow, low) && t in s.tcb && s'.tcb == s.tcb[t := b]
    requires s'.At(delayed).items == s.At(delayed).items && s'.At(overflow).items == s.At(overflow).items
    requires IsDelayList(delayed) && IsDelayList(overflow)
    requires b.stateValue == s.tcb[t].stateValue
    requires b.stateIn == Some(delayed) ==> s.tcb[t].stateIn == Some(delayed)
    ensures DelaysOk(s', delayed, overflow, low)
  {
    SortedSame(s.At(delayed).items, s.tcb, s'.tcb);
    SortedSame(s.At(overflow).items, s.tcb, s'.tcb);
  }

  /** The task joins delayed list `name` with an item value no less than `low`. */
  lemma DelaysResorted(s: Store, s': Store, t: Task, name: ListName, v: nat,
                       delayed: ListName, overflow: ListName, low: nat)
    requires s.Ok() && DelaysOk(s, delayed, overflow, low) && Resorted(s, s', t, name, v)
    requires IsDelayList(delayed) && IsDelayList(overflow) && delayed != overflow
    requires s.tcb[t].stateIn != Some(delayed) && s.tcb[t].stateIn != Some(overflow)
    requires name == overflow || (name == delayed && low <= v)
    ensures DelaysOk(s', delayed, overflow, low)
  {
    var other := if name == delayed then overflow else delayed;
    assert s.ListOk(other) && !s.On(t, other);
    SortedSame(s.At(other).items, s.tcb, s'.tcb);
  }

  ghost predicate SameEvents(s: Store, s': Store) {
    forall name :: HoldsEvents(name) ==> s'.At(name) == s.At(name)
  }

  lemma NoneFirst(ops: seq<ListOp>)
    ensures [] + ops == ops
  {
  }

  /** After the operations `first`, ready task `t` goes to the suspended list. */
  ghost predicate StopsForEver(s: Store, s': Store, t: Task, first: seq<ListOp>) {
    && t in s.tcb && s'.tcb == s.tcb[t := s.tcb[t].(stateIn := Some(Suspended))]
    && Moved(s, s', first + [ListOp(Ready(s.tcb[t].priority), Drop(t)), ListOp(Suspended, Add(t))])
  }

  /** The same, to its place by wake time `wake` on delayed list `name`. */
  ghost predicate Stops(s: Store, s': Store, t: Task, first: seq<ListOp>, name: ListName, wake: nat) {
    && t in s.tcb && s'.tcb == s.tcb[t := s.tcb[t].(stateIn := Some(name), stateValue := wake)]
    && (forall u <- s.At(name).items :: u in s.tcb)
    && Moved(s, s', first + [ListOp(Ready(s.tcb[t].priority), Drop(t)),
                             ListOp(name, Put(SortPosition(s.At(name).items, s.tcb, false, wake), t))])
  }

  lemma StopsForEverAfter(s: Store, s1: Store, s2: Store, t: Task, x: ListOp)
    requires Moved(s, s1, [x]) && StopsForEver(s1, s2, t, [])
    ensures StopsForEver(Store(s.lists, s1.tcb), s2, t, [x])
  {
    hide Moved;
    var ops := [ListOp(Ready(s1.tcb[t].priority), Drop(t)), ListOp(Suspended, Add(t))];
    NoneFirst(ops);
    MovedThen(s, s1, s2, [x], ops);
    MovedFrom(Store(s.lists, s1.tcb), s, s2, [x] + ops);
  }

  lemma StopsAfter(s: Store, s1: Store, s2: Store, t: Task, x: ListOp, name: ListName, wake: nat)
    requires Moved(s, s1, [x]) && Stops(s1, s2, t, [], name, wake) && s1.At(name) == s.At(name)
    ensures Stops(Store(s.lists, s1.tcb), s2, t, [x], name, wake)
  {
    hide Moved, SortPosition;
    var ops := [ListOp(Ready(s1.tcb[t].priority), Drop(t)),
                ListOp(name, Put(SortPosition(s1.At(name).items, s1.tcb, false, wake), t))];
    NoneFirst(ops);
    MovedThen(s, s1, s2, [x], ops);
    MovedFrom(Store(s.lists, s1.tcb), s, s2, [x] + ops);
  }

  /** Task `t` goes to its place by event item value on the event list, and then from the ready
      list to its place by wake time on a delayed list, or to the suspended list. */
  ghost predicate WaitsOn(s: Store, s': Store, q: nat, t: Task, ticks: nat, tick: nat,
                          delayed: ListName, overflow: ListName)
  {
    && t in s.tcb && (forall u <- s.At(Event(q)).items :: u in s.tcb)
    && var p := SortPosition(s.At(Event(q)).items, s.tcb, true, s.tcb[t].eventValue);
       var waiting := Store(s.lists, s.tcb[t := s.tcb[t].(eventIn := Some(Event(q)))]);
       if ticks == MAX_DELAY then StopsForEver(waiting, s', t, [ListOp(Event(q), Put(p, t))])
       else Stops(waiting, s', t, [ListOp(Event(q), Put(p, t))],
                  if tick + ticks < WRAP then delayed else overflow, (tick + ticks) % WRAP)
  }

  lemma JoinsThenStops(s: Store, s1: Store, s2: Store, q: nat, t: Task, ticks: nat, tick: nat,
                       delayed: ListName, overflow: ListName)
    requires t in s.tcb && (forall u <- s.At(Event(q)).items :: u in s.tcb)
    requires IsDelayList(delayed) && IsDelayList(overflow)
    requires s1.tcb == s.tcb[t := s.tcb[t].(eventIn := Some(Event(q)))]
    requires var p := SortPosition(s.At(Event(q)).items, s.tcb, true, s.tcb[t].eventValue);
             Moved(s, s1, [ListOp(Event(q), Put(p, t))])
    requires forall name :: name != Event(q) ==> s1.At(name) == s.At(name)
    requires if ticks == MAX_DELAY then StopsForEver(s1, s2, t, [])
             else Stops(s1, s2, t, [], if tick + ticks < WRAP then delayed else overflow, (tick + ticks) % WRAP)
    ensures WaitsOn(s, s2, q, t, ticks, tick, delayed, overflow)
  {
    hide Moved, SortPosition, Stops, StopsForEver;
    var x := ListOp(Event(q), Put(SortPosition(s.At(Event(q)).items, s.tcb, true, s.tcb[t].eventValue), t));
    if ticks == MAX_DELAY {
      StopsForEverAfter(s, s1, s2, t, x);
    } else {
      StopsAfter(s, s1, s2, t, x, if tick + ticks < WRAP then delayed else overflow, (tick + ticks) % WRAP);
    }
  }

  lemma OffThen(from: ListName, t: Task, x: ListOp)
    ensures Off(Some(from), t) + [x] == [ListOp(from, Drop(t)), x]
  {
  }

  // The unlimited branch of prvAddCurrentTaskToDelayedList
  method Park(s: Store, t: Task, ghost top: nat, ghost delayed: ListName, ghost overflow: ListName,
              ghost epoch: nat, ghost low: nat, ghost next: nat, ghost count: nat, ghost dying: nat)
    returns (s': Store)
    requires StoreOk(s, top, count, dying) && IsDelayList(delayed) && IsDelayList(overflow)
    requires t in s.tcb && s.tcb[t].stateIn == Some(Ready(s.tcb[t].priority))
    requires DelaysOk(s, delayed, overflow, low) && DelaysOk(s, delayed, overflow, next)
    ensures StoreOk(s', top, count, dying) && s'.tcb.Keys == s.tcb.Keys
    ensures DelaysOk(s', delayed, overflow, low) && DelaysOk(s', delayed, overflow, next)
    ensures SameEvents(s, s')
    ensures InfoMap(s'.tcb, delayed, epoch)
         == InfoMap(s.tcb, delayed, epoch)[t := Info(Parked, s.tcb[t].eventIn, s.tcb[t].priority)]
    ensures StopsForEver(s, s', t, [])
  {
    hide Moved;
    assert TaskOk(s.tcb[t], top);
    s' := Requeue(s, t, s.tcb[t].(stateIn := None), Suspended);
    OffThen(Ready(s.tcb[t].priority), t, ListOp(Suspended, Add(t)));
    assert StopsForEver(s, s', t, []) by { NoneFirst(Off(s.tcb[t].stateIn, t) + [ListOp(Suspended, Add(t))]); }
    ghost var b := s'.tcb[t];
    InfoUpdate(s.tcb, t, b, delayed, epoch);
    StoreTouched(s, s', t, b, top, top, count, dying);
    DelaysTouched(s, s', t, b, delayed, overflow, low);
    DelaysTouched(s, s', t, b, delayed, overflow, next);
  }

  lemma AsleepInfo(b: Tcb, delayed: ListName, overflow: ListName, epoch: nat, tick: nat, ticks: nat)
    requires IsDelayList(delayed) && IsDelayList(overflow) && delayed != overflow
    requires tick < WRAP && ticks < WRAP && b.stateValue == (tick + ticks) % WRAP
    requires b.stateIn == Some(if tick + ticks < WRAP then delayed else overflow)
    ensures InfoOf(b, delayed, epoch) == Info(Sleeping(epoch * WRAP + tick + ticks), b.eventIn, b.priority)
  {
  }

  // The timed branch of prvAddCurrentTaskToDelayedList
  method FallAsleep(s: Store, t: Task, ticks: nat, tick: nat, next: nat, ghost top: nat,
                    delayed: ListName, overflow: ListName, ghost epoch: nat,
                    ghost count: nat, ghost dying: nat)
    returns (s': Store, next': nat)
    requires StoreOk(s, top, count, dying) && IsDelayList(delayed) && IsDelayList(overflow)
    requires delayed != overflow && tick < WRAP && 1 <= ticks <= MAX_DELAY && next <= MAX_DELAY
    requires t in s.tcb && s.tcb[t].stateIn == Some(Ready(s.tcb[t].priority))
    requires DelaysOk(s, delayed, overflow, tick + 1) && DelaysOk(s, delayed, overflow, next)
    ensures StoreOk(s', top, count, dying) && s'.tcb.Keys == s.tcb.Keys
    ensures DelaysOk(s', delayed, overflow, tick + 1) && DelaysOk(s', delayed, overflow, next')
    ensures next' == (if tick + ticks < WRAP && tick + ticks < next then tick + ticks else next) <= MAX_DELAY
    ensures SameEvents(s, s')
    ensures InfoMap(s'.tcb, delayed, epoch)
         == InfoMap(s.tcb, delayed, epoch)[t :=
              Info(Sleeping(epoch * WRAP + tick + ticks), s.tcb[t].eventIn, s.tcb[t].priority)]
    ensures Stops(s, s', t, [], if tick + ticks < WRAP then delayed else overflow, (tick + ticks) % WRAP)
  {
    hide Moved;
    hide InfoMap, SortedByTime, DelaysOk, TasksOk, Store.Ok;
    TaskIsOk(s.tcb, top, t);
    var wake := (tick + ticks) % WRAP;
    assert wake == tick + ticks || wake == tick + ticks - WRAP;
    ghost var name := if tick + ticks < WRAP then delayed else overflow;
    ListIs(s, name);
    ghost var put := ListOp(name, Put(SortPosition(s.At(name).items, s.tcb, false, wake), t));
    OffThen(Ready(s.tcb[t].priority), t, put);
    NoneFirst([ListOp(Ready(s.tcb[t].priority), Drop(t)), put]);
    if wake < tick {
      s' := Resort(s, t, overflow, wake);
      next' := next;
      DelaysResorted(s, s', t, overflow, wake, delayed, overflow, tick + 1);
      DelaysResorted(s, s', t, overflow, wake, delayed, overflow, next);
    } else {
      s' := Resort(s, t, delayed, wake);
      next' := if wake < next then wake else next;
      DelaysResorted(s, s', t, delayed, wake, delayed, overflow, tick + 1);
      DelaysLower(s, delayed, overflow, next, next');
      DelaysResorted(s, s', t, delayed, wake, delayed, overflow, next');
    }
    InfoUpdate(s.tcb, t, s'.tcb[t], delayed, epoch);
    AsleepInfo(s'.tcb[t], delayed, overflow, epoch, tick, ticks);
    StoreTouched(s, s', t, s'.tcb[t], top, top, count, dying);
  }

  /** One TCB changes, and no delayed list. */
  lemma Touched(s: Store, s': Store, t: Task, b: Tcb, top: nat, top': nat,
                count: nat, dying: nat, delayed: ListName, overflow: ListName, epoch: nat)
    requires StoreOk(s, top, count, dying) && s'.Ok() && t in s.tcb && s'.tcb == s.tcb[t := b]
    requires top <= top' && TaskOk(b, top') && IsDelayList(delayed) && IsDelayList(overflow)
    requires s'.At(Termination).items == s.At(Termination).items
    requires s'.At(delayed).items == s.At(delayed).items && s'.At(overflow).items == s.At(overflow).items
    requires b.stateValue == s.tcb[t].stateValue
    requires b.stateIn == Some(delayed) ==> s.tcb[t].stateIn == Some(delayed)
    ensures StoreOk(s', top', count, dying)
    ensures forall low :: DelaysOk(s, delayed, overflow, low) ==> DelaysOk(s', delayed, overflow, low)
    ensures InfoMap(s'.tcb, delayed, epoch)
         == InfoMap(s.tcb, delayed, epoch)[t := InfoOf(b, delayed, epoch)]
  {
    StoreTouched(s, s', t, b, top, top', count, dying);
    InfoUpdate(s.tcb, t, b, delayed, epoch);
    forall low | DelaysOk(s, delayed, overflow, low) ensures DelaysOk(s', delayed, overflow, low) {
      DelaysTouched(s, s', t, b, delayed, overflow, low);
    }
  }

  /** The event item of `t` joins or leaves one list; the state items stay where they are. */
  lemma EventMoved(s: Store, s': Store, name: ListName, t: Task, to: Option<ListName>, top: nat,
                   count: nat, dying: nat, delayed: ListName, overflow: ListName, epoch: nat)
    requires StoreOk(s, top, count, dying) && HoldsEvents(name) && t in s.tcb
    requires OnlyAt(s, s', name, t, s.tcb[t].(eventIn := to))
    requires to.Some? ==> HoldsEvents(to.value) && s.tcb[t].stateIn != Some(Termination)
    requires IsDelayList(delayed) && IsDelayList(overflow)
    ensures StoreOk(s', top, count, dying)
    ensures forall low :: DelaysOk(s, delayed, overflow, low) ==> DelaysOk(s', delayed, overflow, low)
    ensures InfoMap(s'.tcb, delayed, epoch)
         == InfoMap(s.tcb, delayed, epoch)[t := InfoOf(s.tcb[t], delayed, epoch).(waitsOn := to)]
  {
    hide DelaysOk, InfoMap, TasksOk, Store.Ok;
    TaskIsOk(s.tcb, top, t);
    Touched(s, s', t, s.tcb[t].(eventIn := to), top, top, count, dying, delayed, overflow, epoch);
  }

  lemma RehomedInfo(s: Store, s': Store, t: Task, name: ListName, delayed: ListName, overflow: ListName, epoch: nat)
    requires s.Ok() && Rehomed(s, s', t, name) && name != delayed && name != overflow
    ensures forall low :: DelaysOk(s, delayed, overflow, low) ==> DelaysOk(s', delayed, overflow, low)
    ensures InfoMap(s'.tcb, delayed, epoch)
         == InfoMap(s.tcb, delayed, epoch)[t := InfoOf(s'.tcb[t], delayed, epoch)]
  {
    InfoUpdate(s.tcb, t, s'.tcb[t], delayed, epoch);
    forall low | DelaysOk(s, delayed, overflow, low) ensures DelaysOk(s', delayed, overflow, low) {
      RehomeDelays(s, s', t, name, delayed, overflow, low);
    }
  }

  /** The whole effect of a kernel call on one task, as the rest of the kernel sees it. */
  ghost predicate Stepped(s: Store, top: nat, s': Store, top': nat, count: nat, dying: nat,
                          delayed: ListName, overflow: ListName, epoch: nat, t: Task, info: Info) {
    && StoreOk(s', top', count, dying) && top <= top' < MAX_PRIORITIES && s'.tcb.Keys == s.tcb.Keys
    && (forall low :: DelaysOk(s, delayed, overflow, low) ==> DelaysOk(s', delayed, overflow, low))
    && InfoMap(s'.tcb, delayed, epoch) == InfoMap(s.tcb, delayed, epoch)[t := info]
  }

  /** The first waiter of a list, and the state of its TCB. */
  lemma HeadWaits(s: Store, q: nat, top: nat, delayed: ListName, epoch: nat)
    requires s.Ok() && TasksOk(s.tcb, top) && s.At(Event(q)).items != []
    ensures var t := s.At(Event(q)).items[0];
            && t in s.tcb && TaskOk(s.tcb[t], top) && s.tcb[t].eventIn == Some(Event(q))
            && t in InfoMap(s.tcb, delayed, epoch)
            && InfoMap(s.tcb, delayed, epoch)[t] == InfoOf(s.tcb[t], delayed, epoch)
            && s.At(Event(q)).Remove(t).items == s.At(Event(q)).items[1..]
  {
    hide Store.Ok, TasksOk;
    ListIs(s, Event(q));
    assert s.At(Event(q)).items[0] in s.At(Event(q)).items;
    TaskIsOk(s.tcb, top, s.At(Event(q)).items[0]);
    PositionUnique(s.At(Event(q)).items, 0);
  }

  lemma OffThenWake(x: ListOp, b: Tcb, t: Task)
    requires b.stateIn.Some? && b.eventIn == None
    ensures [x] + Wake(b, t) == [x, ListOp(b.stateIn.value, Drop(t)), ListOp(Ready(b.priority), Add(t))]
  {
  }

  // The list work of xTaskRemoveFromEventList
  method WakeHead(s: Store, top: nat, q: nat, suspended: bool, ghost count: nat, ghost dying: nat,
                  ghost delayed: ListName, ghost overflow: ListName, ghost epoch: nat)
    returns (s': Store, top': nat)
    requires StoreOk(s, top, count, dying) && top < MAX_PRIORITIES && s.At(Event(q)).items != []
    requires IsDelayList(delayed) && IsDelayList(overflow)
    ensures s.At(Event(q)).items[0] in InfoMap(s.tcb, delayed, epoch)
    ensures var t := s.At(Event(q)).items[0];
            var info := InfoMap(s.tcb, delayed, epoch)[t];
            Stepped(s, top, s', top', count, dying, delayed, overflow, epoch, t,
                    if suspended then info.(waitsOn := Some(PendingReady)) else info.Woken())
    ensures s'.At(Event(q)).items == s.At(Event(q)).items[1..]
    ensures !suspended && s.At(PendingReady).items == [] ==> s'.At(PendingReady).items == []
    ensures var t := s.At(Event(q)).items[0];
            t in s.tcb && if suspended then HeadHeld(s, s', q, t) else HeadReady(s, s', q, t)
  {
    hide DelaysOk, TasksOk, Store.Ok, Moved, InfoMap, Stepped;
    HeadWaits(s, q, top, delayed, epoch);
    if suspended {
      top' := top;
      s' := HoldHead(s, top, q, count, dying, delayed, overflow, epoch);
    } else {
      s', top' := ReadyHead(s, top, q, count, dying, delayed, overflow, epoch);
    }
  }

  ghost predicate HeadHeld(s: Store, s': Store, q: nat, t: Task)
    requires t in s.tcb
  {
    && s'.tcb == s.tcb[t := s.tcb[t].(eventIn := Some(PendingReady))]
    && Moved(s, s', [ListOp(Event(q), Drop(t)), ListOp(PendingReady, Add(t))])
  }

  ghost predicate HeadReady(s: Store, s': Store, q: nat, t: Task)
    requires t in s.tcb
  {
    && s.tcb[t].stateIn.Some? && s'.tcb == s.tcb[t := Awake(s.tcb[t])]
    && Moved(s, s', [ListOp(Event(q), Drop(t)), ListOp(s.tcb[t].stateIn.value, Drop(t)),
                     ListOp(Ready(s.tcb[t].priority), Add(t))])
  }

  // Its branch for a suspended scheduler
  method HoldHead(s: Store, ghost top: nat, q: nat, ghost count: nat, ghost dying: nat,
                  ghost delayed: ListName, ghost overflow: ListName, ghost epoch: nat)
    returns (s': Store)
    requires StoreOk(s, top, count, dying) && top < MAX_PRIORITIES && s.At(Event(q)).items != []
    requires IsDelayList(delayed) && IsDelayList(overflow)
    ensures var t := s.At(Event(q)).items[0];
            && t in s.tcb && HeadHeld(s, s', q, t)
            && Stepped(s, top, s', top, count, dying, delayed, overflow, epoch, t,
                       InfoOf(s.tcb[t], delayed, epoch).(waitsOn := Some(PendingReady)))
    ensures s'.At(Event(q)).items == s.At(Event(q)).items[1..]
  {
    hide DelaysOk, TasksOk, Store.Ok, Ring.Remove, Ring.InsertEnd, InfoMap, Moved;
    var t := s.At(Event(q)).items[0];
    HeadWaits(s, q, top, delayed, epoch);
    var s1 := Unlink(s, true, t);
    EventMoved(s, s1, Event(q), t, None, top, count, dying, delayed, overflow, epoch);
    s' := LinkEnd(s1, PendingReady, t);
    MovedThen(s, s1, s', [ListOp(Event(q), Drop(t))], [ListOp(PendingReady, Add(t))]);
    OffThen(Event(q), t, ListOp(PendingReady, Add(t)));
    EventMoved(s1, s', PendingReady, t, Some(PendingReady), top, count, dying, delayed, overflow, epoch);
  }

  // And for a running one
  method ReadyHead(s: Store, top: nat, q: nat, ghost count: nat, ghost dying: nat,
                   ghost delayed: ListName, ghost overflow: ListName, ghost epoch: nat)
    returns (s': Store, top': nat)
    requires StoreOk(s, top, count, dying) && top < MAX_PRIORITIES && s.At(Event(q)).items != []
    requires IsDelayList(delayed) && IsDelayList(overflow)
    ensures var t := s.At(Event(q)).items[0];
            && t in s.tcb && HeadReady(s, s', q, t)
            && Stepped(s, top, s', top', count, dying, delayed, overflow, epoch, t,
                       InfoOf(s.tcb[t], delayed, epoch).Woken())
    ensures s'.At(Event(q)).items == s.At(Event(q)).items[1..]
    ensures s.At(PendingReady).items == [] ==> s'.At(PendingReady).items == []
  {
    hide DelaysOk, TasksOk, Store.Ok, Ring.Remove, Ring.InsertEnd, InfoMap, Moved, Wake;
    var t := s.At(Event(q)).items[0];
    HeadWaits(s, q, top, delayed, epoch);
    var s1 := Unlink(s, true, t);
    EventMoved(s, s1, Event(q), t, None, top, count, dying, delayed, overflow, epoch);
    assert t !in s1.At(Event(q)).items by { NotWaiting(s1, t, Event(q)); }
    s', top' := Unblock(s1, top, t, count, dying);
    MovedThen(s, s1, s', [ListOp(Event(q), Drop(t))], Wake(s1.tcb[t], t));
    OffThenWake(ListOp(Event(q), Drop(t)), s1.tcb[t], t);
    RehomedInfo(s1, s', t, Ready(s1.tcb[t].priority), delayed, overflow, epoch);
  }

  // The list work of vTaskSuspend
  method Halt(s: Store, t: Task, ghost top: nat, ghost count: nat, ghost dying: nat,
              ghost delayed: ListName, ghost overflow: ListName, ghost epoch: nat)
    returns (s': Store)
    requires StoreOk(s, top, count, dying) && top < MAX_PRIORITIES
    requires t in s.tcb && s.tcb[t].stateIn != Some(Termination)
    requires IsDelayList(delayed) && IsDelayList(overflow)
    ensures Stepped(s, top, s', top, count, dying, delayed, overflow, epoch, t, Info(Parked, None, s.tcb[t].priority))
    ensures s.At(PendingReady).items == [] ==> s'.At(PendingReady).items == []
    ensures s'.tcb == s.tcb[t := s.tcb[t].(stateIn := Some(Suspended), eventIn := None)]
    ensures Moved(s, s', OffBoth(s.tcb[t], t) + [ListOp(Suspended, Add(t))])
  {
    hide DelaysOk, TasksOk, Store.Ok, Moved;
    TaskIsOk(s.tcb, top, t);
    s' := Rehome(s, t, Suspended);
    RehomeStoreOk(s, s', t, Suspended, top, top, count, dying);
    RehomedInfo(s, s', t, Suspended, delayed, overflow, epoch);
  }

  ghost predicate Revived(s: Store, s': Store, t: Task)
    requires t in s.tcb
  {
    && s'.tcb == s.tcb[t := Awake(s.tcb[t])]
    && Moved(s, s', [ListOp(Suspended, Drop(t)), ListOp(Ready(s.tcb[t].priority), Add(t))])
  }

  ghost predicate Held(s: Store, s': Store, t: Task)
    requires t in s.tcb
  {
    && s'.tcb == s.tcb[t := s.tcb[t].(eventIn := Some(PendingReady))]
    && Moved(s, s', [ListOp(PendingReady, Add(t))])
  }

  // The list work of vTaskResume: from the suspended list to the ready list
  method Revive(s: Store, top: nat, t: Task, ghost count: nat, ghost dying: nat,
                ghost delayed: ListName, ghost overflow: ListName, ghost epoch: nat)
    returns (s': Store, top': nat)
    requires StoreOk(s, top, count, dying) && top < MAX_PRIORITIES
    requires t in s.tcb && s.tcb[t].stateIn == Some(Suspended) && s.tcb[t].eventIn == None
    requires IsDelayList(delayed) && IsDelayList(overflow)
    ensures Stepped(s, top, s', top', count, dying, delayed, overflow, epoch, t,
                    Info(Runnable, None, s.tcb[t].priority))
    ensures s'.At(PendingReady).items == s.At(PendingReady).items
    ensures s.At(Ready(s.tcb[t].priority)).Valid()
    ensures s'.At(Ready(s.tcb[t].priority)) == s.At(Ready(s.tcb[t].priority)).InsertEnd(t)
    ensures Revived(s, s', t)
  {
    hide DelaysOk, TasksOk, Store.Ok, Moved;
    TaskIsOk(s.tcb, top, t);
    s' := Requeue(s, t, s.tcb[t].(stateIn := None), Ready(s.tcb[t].priority));
    OffThen(Suspended, t, ListOp(Ready(s.tcb[t].priority), Add(t)));
    top' := if s.tcb[t].priority > top then s.tcb[t].priority else top;
    Touched(s, s', t, s'.tcb[t], top, top', count, dying, delayed, overflow, epoch);
  }

  // Onto the pending-ready list, as xTaskResumeFromISR does when the scheduler is suspended
  method HoldPending(s: Store, t: Task, ghost top: nat, ghost count: nat, ghost dying: nat,
                     ghost delayed: ListName, ghost overflow: ListName, ghost epoch: nat)
    returns (s': Store)
    requires StoreOk(s, top, count, dying) && top < MAX_PRIORITIES
    requires t in s.tcb && s.tcb[t].stateIn == Some(Suspended) && s.tcb[t].eventIn == None
    requires IsDelayList(delayed) && IsDelayList(overflow)
    ensures Stepped(s, top, s', top, count, dying, delayed, overflow, epoch, t,
                    Info(Parked, Some(PendingReady), s.tcb[t].priority))
    ensures Held(s, s', t)
  {
    hide DelaysOk, TasksOk, Store.Ok, Moved;
    TaskIsOk(s.tcb, top, t);
    s' := LinkEnd(s, PendingReady, t);
    EventMoved(s, s', PendingReady, t, Some(PendingReady), top, count, dying, delayed, overflow, epoch);
  }

  /** A ready task goes to the end of the ready list of priority `p`. */
  ghost function Requeued(b: Tcb, p: nat, t: Task): seq<ListOp> {
    if b.stateIn == Some(Ready(b.priority)) then
      [ListOp(Ready(b.priority), Drop(t)), ListOp(Ready(p), Add(t))]
    else []
  }

  // The change of rank that the mutex code and vTaskPrioritySet share: a ready task to be
  // moved goes to the end of the ready list of its new priority
  method Rethread(s: Store, top: nat, t: Task, r: Rank, v: nat, move: bool,
                  ghost delayed: ListName, ghost overflow: ListName, ghost epoch: nat,
                  ghost count: nat, ghost dying: nat)
    returns (s': Store, top': nat)
    requires StoreOk(s, top, count, dying) && top < MAX_PRIORITIES && t in s.tcb
    requires r.priority < MAX_PRIORITIES && IsDelayList(delayed) && IsDelayList(overflow)
    requires !move ==> r.priority == s.tcb[t].priority
    ensures Stepped(s, top, s', top', count, dying, delayed, overflow, epoch, t,
                    InfoOf(s.tcb[t], delayed, epoch).(priority := r.priority))
    ensures SameEvents(s, s') && RankChanged(s.tcb, s'.tcb, t, r, v)
    ensures !move ==> s'.lists == s.lists
    ensures move && s.tcb[t].stateIn == Some(Ready(s.tcb[t].priority)) && r.priority != s.tcb[t].priority ==>
              var q := s.At(Ready(r.priority));
              q.Valid() && s'.At(Ready(r.priority)) == q.InsertEnd(t)
    ensures Moved(s, s', if move then Requeued(s.tcb[t], r.priority, t) else [])
  {
    hide Moved;
    hide InfoMap, DelaysOk, Store.Ok, TasksOk, Ring.InsertEnd, Ring.Remove;
    TaskIsOk(s.tcb, top, t);
    var b := s.tcb[t].WithRank(r, v);
    if move && s.tcb[t].stateIn == Some(Ready(s.tcb[t].priority)) {
      s' := Requeue(s, t, b.(stateIn := None), Ready(r.priority));
      OffThen(Ready(s.tcb[t].priority), t, ListOp(Ready(r.priority), Add(t)));
      top' := if r.priority > top then r.priority else top;
    } else {
      UpdateOk(s, t, b);
      s', top' := Store(s.lists, s.tcb[t := b]), top;
      MovedNever(s, s');
    }
    Touched(s, s', t, s'.tcb[t], top, top', count, dying, delayed, overflow, epoch);
  }

  /** One TCB changes, by its rank and what follows from it: a ready task is on the ready
      list of its new priority. */
  ghost predicate RankChanged(tcb: map<Task, Tcb>, tcb': map<Task, Tcb>, t: Task, r: Rank, v: nat) {
    && t in tcb
    && tcb' == tcb[t := tcb[t].WithRank(r, v).(stateIn :=
         if tcb[t].stateIn == Some(Ready(tcb[t].priority)) then Some(Ready(r.priority)) else tcb[t].stateIn)]
  }

  lemma InfoAt(tcb: map<Task, Tcb>, delayed: ListName, epoch: nat, t: Task)
    requires t in tcb
    ensures t in InfoMap(tcb, delayed, epoch) && InfoMap(tcb, delayed, epoch)[t] == InfoOf(tcb[t], delayed, epoch)
  {
  }

  ghost predicate SomeReady(s: Store) {
    exists t :: t in s.tcb && s.tcb[t].stateIn.Some? && s.tcb[t].stateIn.value.Ready?
  }

  // The loop of taskSELECT_HIGHEST_PRIORITY_TASK
  method SelectHighest(s: Store, top: nat) returns (p: nat)
    requires s.Ok() && TasksOk(s.tcb, top) && SomeReady(s)
    ensures p <= top && s.At(Ready(p)).items != [] && TasksOk(s.tcb, p)
  {
    p := top;
    while s.At(Ready(p)).items == []
      invariant p <= top && TasksOk(s.tcb, p)
      decreases p
    {
      NoneAtTop(s, p);
      p := p - 1;
    }
  }

  lemma NoneAtTop(s: Store, p: nat)
    requires s.Ok() && TasksOk(s.tcb, p) && SomeReady(s) && s.At(Ready(p)).items == []
    ensures p > 0 && TasksOk(s.tcb, p - 1)
  {
    assert s.ListOk(Ready(p));
    forall t | t in s.tcb && s.tcb[t].stateIn.Some? && s.tcb[t].stateIn.value.Ready?
      ensures s.tcb[t].priority < p && TaskOk(s.tcb[t], p - 1)
    {
      assert TaskOk(s.tcb[t], p) && !s.On(t, Ready(p));
    }
    assert p > 0;
    forall t | t in s.tcb ensures TaskOk(s.tcb[t], p - 1) {
      assert TaskOk(s.tcb[t], p);
    }
  }

  /** Moving the index of a list moves none of its items. */
  lemma IndexMoved(s: Store, name: ListName, top: nat, count: nat, dying: nat, delayed: ListName, overflow: ListName)
    requires StoreOk(s, top, count, dying) && s.At(name).items != []
    ensures var s' := Store(s.lists[name := s.At(name).Next()], s.tcb);
            && StoreOk(s', top, count, dying)
            && (forall other :: s'.At(other).items == s.At(other).items)
            && Moved(s, s', [ListOp(name, Select)])
            && forall low :: DelaysOk(s, delayed, overflow, low) ==> DelaysOk(s', delayed, overflow, low)
  {
    var s' := Store(s.lists[name := s.At(name).Next()], s.tcb);
    assert s.ListOk(name);
    MovedOnce(s, s', ListOp(name, Select));
    forall other ensures s'.ListOk(other) {
      assert s.ListOk(other);
      forall t ensures t in s'.At(other).items <==> s'.On(t, other) {
        assert t in s.At(other).items <==> s.On(t, other);
      }
    }
  }

  /** A TCB on no list comes into being. */
  lemma TaskBorn(s: Store, t: Task, b: Tcb, top: nat, count: nat, dying: nat, delayed: ListName, overflow: ListName)
    requires StoreOk(s, top, count, dying) && t !in s.tcb && b.stateIn == None && b.eventIn == None
    ensures Store(s.lists, s.tcb[t := b]).Ok()
    ensures forall low :: DelaysOk(s, delayed, overflow, low) ==>
              DelaysOk(Store(s.lists, s.tcb[t := b]), delayed, overflow, low)
  {
    NewTaskOk(s, t, b);
    SortedKept(s.At(delayed).items, s.tcb, s.tcb[t := b]);
    SortedKept(s.At(overflow).items, s.tcb, s.tcb[t := b]);
  }

  lemma SortedKept(items: seq<Task>, tcb: map<Task, Tcb>, tcb': map<Task, Tcb>)
    requires forall t <- tcb :: t in tcb' && tcb'[t].stateValue == tcb[t].stateValue
    ensures SortedByTime(items, tcb) ==> SortedByTime(items, tcb')
  {
  }

  lemma AdmittedOk(s: Store, s': Store, t: Task, b: Tcb, top: nat, top': nat, count: nat, dying: nat)
    requires StoreOk(s, top, count, dying) && s'.Ok() && t !in s.tcb && s'.tcb == s.tcb[t := b]
    requires top <= top' && TaskOk(b, top') && s'.At(Termination).items == s.At(Termination).items
    ensures StoreOk(s', top', count + 1, dying)
  {
    assert s'.tcb.Keys == s.tcb.Keys + {t};
    forall u | u in s'.tcb ensures TaskOk(s'.tcb[u], top') {
      assert u != t ==> TaskOk(s.tcb[u], top);
    }
  }

  // The list work of prvAddNewTaskToReadyList
  method Admit(s: Store, top: nat, t: Task, priority: nat, ghost delayed: ListName, ghost overflow: ListName,
               ghost epoch: nat, ghost count: nat, ghost dying: nat)
    returns (s': Store, top': nat)
    requires StoreOk(s, top, count, dying) && top < MAX_PRIORITIES && t !in s.tcb && priority < MAX_PRIORITIES
    requires IsDelayList(delayed) && IsDelayList(overflow)
    ensures StoreOk(s', top', count + 1, dying) && top <= top' < MAX_PRIORITIES
    ensures forall low :: DelaysOk(s, delayed, overflow, low) ==> DelaysOk(s', delayed, overflow, low)
    ensures SameEvents(s, s') && s.At(Ready(priority)).Valid()
    ensures s'.At(Ready(priority)) == s.At(Ready(priority)).InsertEnd(t)
    ensures s'.tcb == s.tcb[t := NewTcb(priority)]
    ensures InfoMap(s'.tcb, delayed, epoch)
         == InfoMap(s.tcb, delayed, epoch)[t := Info(Runnable, None, priority)]
    ensures Moved(s, s', [ListOp(Ready(priority), Add(t))])
  {
    hide Moved;
    hide DelaysOk, InfoMap, TasksOk, Store.Ok, Ring.InsertEnd;
    var b := NewTcb(priority).(stateIn := None);
    TaskBorn(s, t, b, top, count, dying, delayed, overflow);
    var s1 := Store(s.lists, s.tcb[t := b]);
    s' := LinkEnd(s1, Ready(priority), t);
    MovedFrom(s, s1, s', [ListOp(Ready(priority), Add(t))]);
    top' := if priority > top then priority else top;
    assert s'.tcb == s.tcb[t := NewTcb(priority)];
    InfoUpdate(s.tcb, t, s'.tcb[t], delayed, epoch);
    AdmittedOk(s, s', t, s'.tcb[t], top, top', count, dying);
    forall low | DelaysOk(s, delayed, overflow, low) ensures DelaysOk(s', delayed, overflow, low) {
      DelaysTouched(s1, s', t, s'.tcb[t], delayed, overflow, low);
    }
  }

  function NewTcb(priority: nat): Tcb
    requires priority < MAX_PRIORITIES
  {
    Tcb(priority, priority, 0, 0, Some(Ready(priority)), MAX_PRIORITIES - priority, None)
  }

  /** A TCB leaves the system. */
  method Expel(s: Store, t: Task, ghost top: nat, ghost delayed: ListName, ghost overflow: ListName,
               ghost epoch: nat, ghost count: nat, ghost dying: nat)
    returns (s': Store)
    requires StoreOk(s, top, count, dying) && t in s.tcb
    requires IsDelayList(delayed) && IsDelayList(overflow)
    ensures count > 0 && StoreOk(s', top, count - 1, |s'.At(Termination).items|)
    ensures |s'.At(Termination).items| == if s.tcb[t].stateIn == Some(Termination) then dying - 1 else dying
    ensures forall low :: DelaysOk(s, delayed, overflow, low) ==> DelaysOk(s', delayed, overflow, low)
    ensures s'.tcb == s.tcb - {t} && forall name :: s'.At(name).items == Lose(s.At(name).items, t)
    ensures InfoMap(s'.tcb, delayed, epoch) == InfoMap(s.tcb, delayed, epoch) - {t}
    ensures Moved(s, s', OffBoth(s.tcb[t], t))
  {
    hide InfoMap, DelaysOk, TasksOk, Lose, Store.Ok, Moved;
    assert TaskOk(s.tcb[t], top) by { TaskIsOk(s.tcb, top, t); }
    s' := Discard(s, t);
    Expelled(s, s', t, top, delayed, overflow, epoch);
    assert s.tcb.Keys == s'.tcb.Keys + {t};
  }

  lemma TaskIsOk(tcb: map<Task, Tcb>, top: nat, t: Task)
    requires TasksOk(tcb, top) && t in tcb
    ensures TaskOk(tcb[t], top)
  {
  }

  lemma Expelled(s: Store, s': Store, t: Task, top: nat, delayed: ListName, overflow: ListName, epoch: nat)
    requires s.Ok() && s'.Ok() && TasksOk(s.tcb, top) && t in s.tcb && s'.tcb == s.tcb - {t}
    requires forall name :: s'.At(name).items == Lose(s.At(name).items, t)
    requires IsDelayList(delayed) && IsDelayList(overflow)
    ensures TasksOk(s'.tcb, top)
    ensures |s'.At(Termination).items|
         == |s.At(Termination).items| - if s.tcb[t].stateIn == Some(Termination) then 1 else 0
    ensures forall low :: DelaysOk(s, delayed, overflow, low) ==> DelaysOk(s', delayed, overflow, low)
    ensures InfoMap(s'.tcb, delayed, epoch) == InfoMap(s.tcb, delayed, epoch) - {t}
  {
    hide SortedByTime;
    assert s.ListOk(Termination) && (s.On(t, Termination) <==> t in s.At(Termination).items);
    WithoutMembers(s.At(Termination).items, t);
    forall u | u in s'.tcb ensures TaskOk(s'.tcb[u], top) {
      assert TaskOk(s.tcb[u], top);
    }
    assert s.ListOk(delayed) && s.ListOk(overflow);
    if SortedByTime(s.At(delayed).items, s.tcb) && SortedByTime(s.At(overflow).items, s.tcb) {
      SortedExpel(s.At(delayed).items, s.tcb, t);
      SortedExpel(s.At(overflow).items, s.tcb, t);
    }
  }

  lemma SortedExpel(items: seq<Task>, tcb: map<Task, Tcb>, t: Task)
    requires SortedByTime(items, tcb) && Distinct(items)
    ensures SortedByTime(Lose(items, t), tcb - {t})
  {
    WithoutMembers(items, t);
    SortedLose(items, tcb, tcb, t);
  }

  // The list work of vTaskDelete when a task deletes itself
  method Bury(s: Store, t: Task, ghost top: nat, ghost count: nat, ghost dying: nat,
              ghost delayed: ListName, ghost overflow: ListName, ghost epoch: nat)
    returns (s': Store)
    requires StoreOk(s, top, count, dying) && top < MAX_PRIORITIES
    requires t in s.tcb && s.tcb[t].stateIn != Some(Termination)
    requires IsDelayList(delayed) && IsDelayList(overflow)
    ensures Stepped(s, top, s', top, count, dying + 1, delayed, overflow, epoch, t,
                    Info(Dying, None, s.tcb[t].priority))
    ensures s.At(PendingReady).items == [] ==> s'.At(PendingReady).items == []
    ensures s'.tcb == s.tcb[t := s.tcb[t].(stateIn := Some(Termination), eventIn := None)]
    ensures Moved(s, s', OffBoth(s.tcb[t], t) + [ListOp(Termination, Add(t))])
  {
    hide DelaysOk, TasksOk, Store.Ok, Moved;
    TaskIsOk(s.tcb, top, t);
    s' := Rehome(s, t, Termination);
    BuriedOk(s, s', t, top, count, dying);
    RehomedInfo(s, s', t, Termination, delayed, overflow, epoch);
  }

  lemma BuriedOk(s: Store, s': Store, t: Task, top: nat, count: nat, dying: nat)
    requires StoreOk(s, top, count, dying) && Rehomed(s, s', t, Termination)
    requires s.tcb[t].stateIn != Some(Termination)
    ensures StoreOk(s', top, count, dying + 1)
  {
    assert s'.tcb.Keys == s.tcb.Keys;
    forall u | u in s'.tcb ensures TaskOk(s'.tcb[u], top) {
      assert TaskOk(s.tcb[u], top);
    }
    OneListCount(s, Termination);
    OneListCount(s', Termination);
    assert TasksOn(s', [Termination]) == TasksOn(s, [Termination]) + {t};
  }

  /** The tasks that have not deleted themselves. */
  ghost function Living(tasks: map<Task, Info>): map<Task, Info> {
    map t | t in tasks && !tasks[t].status.Dying? :: tasks[t]
  }

  /** Who is on the termination list is dying, and nobody else. */
  lemma DyingAreListed(s: Store, top: nat, delayed: ListName, epoch: nat)
    requires s.Ok() && TasksOk(s.tcb, top)
    ensures s.At(Termination).items == [] ==> Living(InfoMap(s.tcb, delayed, epoch)) == InfoMap(s.tcb, delayed, epoch)
    ensures s.At(Termination).items != [] ==>
      var t := s.At(Termination).items[0];
      && t in s.tcb && s.tcb[t].stateIn == Some(Termination)
      && Living(InfoMap(s.tcb, delayed, epoch) - {t}) == Living(InfoMap(s.tcb, delayed, epoch))
  {
    assert s.ListOk(Termination);
    if s.At(Termination).items == [] {
      forall t | t in s.tcb ensures s.tcb[t].stateIn != Some(Termination) {
        assert !s.On(t, Termination);
      }
    } else {
      assert s.On(s.At(Termination).items[0], Termination);
    }
  }

  ghost function BarDying(tcb: map<Task, Tcb>): map<Task, Tcb> {
    map t | t in tcb && tcb[t].stateIn != Some(Termination) :: tcb[t]
  }

  /** A dying task leaves the system: no other list but the termination list changes. */
  lemma OthersStay(s: Store, s': Store, t: Task)
    requires s.Ok() && t in s.tcb && s.tcb[t].stateIn == Some(Termination) && s.tcb[t].eventIn == None
    requires Moved(s, s', OffBoth(s.tcb[t], t)) && s'.tcb == s.tcb - {t}
    ensures forall name :: name != Termination ==> s'.At(name) == s.At(name)
    ensures BarDying(s'.tcb) == BarDying(s.tcb)
  {
    forall name | name != Termination ensures s'.At(name) == s.At(name) {
      assert MovedAt(s, s', OffBoth(s.tcb[t], t), name);
      OffAt(s.tcb[t], t, name);
    }
  }

  lemma NobodyDying(s: Store)
    requires s.Ok() && s.At(Termination).items == []
    ensures BarDying(s.tcb) == s.tcb
  {
    assert s.ListOk(Termination);
    forall t | t in s.tcb ensures s.tcb[t].stateIn != Some(Termination) {
      assert !s.On(t, Termination);
    }
  }

  /** Each task is on exactly one state list, and the lengths of the state lists add up to
      the number of tasks. */
  lemma ListsPartitionTasks(s: Store, top: nat, count: nat, dying: nat)
    requires StoreOk(s, top, count, dying) && top < MAX_PRIORITIES
    ensures TotalLength(s, STATE_LISTS) == count
    ensures forall t <- s.tcb :: OnOneList(s, t)
  {
    hide TasksOk, Store.Ok, TotalLength, TasksOn, OnOneList, Distinct;
    StateListsDiffer();
    ListsCount(s, STATE_LISTS);
    forall t | t in s.tcb ensures OnOneList(s, t) {
      StateListOf(s, top, t);
    }
    AllCounted(s);
  }

  lemma StateListsDiffer()
    ensures Distinct(STATE_LISTS) && forall n <- STATE_LISTS :: !HoldsEvents(n)
  {
    DistinctPairs(STATE_LISTS);
  }

  lemma AllCounted(s: Store)
    requires forall t <- s.tcb :: OnOneList(s, t)
    ensures TasksOn(s, STATE_LISTS) == s.tcb.Keys
  {
    forall t | t in s.tcb ensures t in TasksOn(s, STATE_LISTS) {
      assert OnOneList(s, t);
    }
  }

  ghost predicate OnOneList(s: Store, t: Task)
  {
    && t in s.tcb && s.tcb[t].stateIn.Some? && s.tcb[t].stateIn.value in STATE_LISTS
    && forall n <- STATE_LISTS :: t in s.At(n).items <==> s.tcb[t].stateIn == Some(n)
  }

  /** No ready list above uxTopReadyPriority has an item. */
  lemma NoneAboveTop(s: Store, top: nat, p: nat)
    requires s.Ok() && TasksOk(s.tcb, top) && p > top
    ensures s.At(Ready(p)).items == []
  {
    if s.At(Ready(p)).items != [] {
      assert s.ListOk(Ready(p)) && s.On(s.At(Ready(p)).items[0], Ready(p));
      TaskIsOk(s.tcb, top, s.At(Ready(p)).items[0]);
    }
  }

  lemma ReadyAtPriority(s: Store, top: nat, t: Task, p: nat)
    requires s.Ok() && TasksOk(s.tcb, top) && t in s.tcb && t in s.At(Ready(p)).items
    ensures p == s.tcb[t].priority
  {
    assert s.ListOk(Ready(p)) && s.On(t, Ready(p));
    TaskIsOk(s.tcb, top, t);
  }

  /** Runnable tasks are on a ready list. */
  lemma RunnableIsReady(s: Store, top: nat, delayed: ListName, epoch: nat, t: Task)
    requires s.Ok() && TasksOk(s.tcb, top) && t in s.tcb
    ensures InfoOf(s.tcb[t], delayed, epoch).status.Runnable? <==>
            s.tcb[t].stateIn == Some(Ready(s.tcb[t].priority))
    ensures s.tcb[t].stateIn == Some(Ready(s.tcb[t].priority)) <==> t in s.At(Ready(s.tcb[t].priority)).items
  {
    TaskIsOk(s.tcb, top, t);
    assert s.ListOk(Ready(s.tcb[t].priority));
  }

  /** Ticks take nobody off a ready list. */
  lemma ReadyGrows(s: Store, s': Store, top: nat, top': nat, delayed: ListName, delayed': ListName,
                   epoch: nat, epoch': nat, now: nat, p: nat)
    requires s.Ok() && TasksOk(s.tcb, top) && s'.Ok() && TasksOk(s'.tcb, top')
    requires InfoMap(s'.tcb, delayed', epoch') == WokenBy(InfoMap(s.tcb, delayed, epoch), now)
    ensures |s.At(Ready(p)).items| <= |s'.At(Ready(p)).items|
    ensures forall t <- s.tcb :: t in s'.tcb && s'.tcb[t].priority == s.tcb[t].priority
  {
    hide TasksOk, Store.Ok, InfoOf;
    var tasks, tasks' := InfoMap(s.tcb, delayed, epoch), InfoMap(s'.tcb, delayed', epoch');
    forall t | t in s.tcb ensures t in s'.tcb && s'.tcb[t].priority == s.tcb[t].priority {
      SamePriority(s.tcb, s'.tcb, delayed, delayed', epoch, epoch', now, t);
    }
    forall t | t in s.At(Ready(p)).items ensures t in s'.At(Ready(p)).items {
      ReadyIsListed(s, p, t);
      ReadyAtPriority(s, top, t, p);
      RunnableIsReady(s, top, delayed, epoch, t);
      assert t in tasks && t in tasks' && tasks[t] == InfoOf(s.tcb[t], delayed, epoch);
      RunnableIsReady(s', top', delayed', epoch', t);
    }
    ReadyIsListed(s, p, 0);
    ReadyIsListed(s', p, 0);
    SetSize(s.At(Ready(p)).items);
    SetSize(s'.At(Ready(p)).items);
    Subset(SetOf(s.At(Ready(p)).items), SetOf(s'.At(Ready(p)).items));
  }

  lemma ReadyIsListed(s: Store, p: nat, t: Task)
    requires s.Ok()
    ensures Distinct(s.At(Ready(p)).items) && (t in s.At(Ready(p)).items ==> t in s.tcb)
  {
    assert s.ListOk(Ready(p));
  }

  lemma SamePriority(tcb: map<Task, Tcb>, tcb': map<Task, Tcb>, delayed: ListName, delayed': ListName,
                     epoch: nat, epoch': nat, now: nat, t: Task)
    requires t in tcb && InfoMap(tcb', delayed', epoch') == WokenBy(InfoMap(tcb, delayed, epoch), now)
    ensures t in tcb' && tcb'[t].priority == tcb[t].priority
  {
    var tasks, tasks' := InfoMap(tcb, delayed, epoch), InfoMap(tcb', delayed', epoch');
    assert t in tasks && t in tasks';
    assert tasks'[t].priority == tasks[t].priority;
  }

  lemma Subset<T>(a: set<T>, b: set<T>)
    requires a <= b
    ensures |a| <= |b|
  {
    assert b == a + (b - a);
  }

  lemma IdleOnly(s: Store, idle: Task)
    requires s == Store(map[Ready(0) := Ring([idle], 0)], map[idle := NewTcb(0)])
    ensures StoreOk(s, 0, 1, 0) && s.At(PendingReady).items == []
    ensures forall low :: DelaysOk(s, DelayedA, DelayedB, low)
    ensures InfoMap(s.tcb, DelayedA, 0) == map[idle := Info(Runnable, None, 0)]
  {
    forall name ensures s.ListOk(name) {
      assert Distinct([idle]);
      forall t ensures t in s.At(name).items <==> s.On(t, name) {
      }
    }
    assert s.tcb.Keys == {idle};
  }

  lemma StateListOf(s: Store, top: nat, t: Task)
    requires s.Ok() && TasksOk(s.tcb, top) && t in s.tcb && top < MAX_PRIORITIES
    ensures OnOneList(s, t)
  {
    TaskIsOk(s.tcb, top, t);
    var n := s.tcb[t].stateIn.value;
    if n.Ready? {
      assert STATE_LISTS[n.priority] == n;
    } else {
      assert STATE_LISTS[7] == DelayedA && STATE_LISTS[8] == DelayedB && STATE_LISTS[9] == Suspended
          && STATE_LISTS[10] == Termination;
    }
    forall m | m in STATE_LISTS ensures t in s.At(m).items <==> s.tcb[t].stateIn == Some(m) {
      assert s.ListOk(m) && (t in s.At(m).items <==> s.On(t, m));
    }
  }
}
