/** The scheduler's time, in absolute ticks that never wrap: what the 32-bit tick count and
    the two delayed lists of lib/FreeRTOS/tasks.c stand for. */
module Clocks {
  import opened Words

  type Task = nat

  /** The List_t objects of the kernel. */
  datatype ListName =
    | Ready(priority: nat) | DelayedA | DelayedB | Suspended | Termination
    | PendingReady | Event(id: nat)

  datatype Status = Runnable | Sleeping(wake: nat) | Parked | Dying

  datatype Info = Info(status: Status, waitsOn: Option<ListName>, priority: nat) {

    function Woken(): Info {
      Info(Runnable, None, priority)
    }
  }

  /** Whoever sleeps until tick `n` or less is ready, and waits for no event any more. */
  ghost function WokenBy(tasks: map<Task, Info>, n: nat): map<Task, Info> {
    map t | t in tasks ::
      if tasks[t].status.Sleeping? && tasks[t].status.wake <= n then tasks[t].Woken() else tasks[t]
  }

  /** Whoever is held in the pending-ready list is ready. */
  ghost function Drained(tasks: map<Task, Info>): map<Task, Info> {
    map t | t in tasks ::
      if tasks[t].waitsOn == Some(PendingReady) then tasks[t].Woken() else tasks[t]
  }

  lemma WokenTwice(tasks: map<Task, Info>, m: nat, n: nat)
    requires m <= n
    ensures WokenBy(WokenBy(tasks, m), n) == WokenBy(tasks, n)
  {
  }

  datatype Clock = Clock(now: nat, pended: nat, depth: nat, tasks: map<Task, Info>) {

    /** Time passes up to tick `n`. */
    ghost function AdvanceTo(n: nat): Clock {
      this.(now := n, tasks := WokenBy(tasks, n))
    }

    ghost function Drain(): Clock {
      this.(tasks := Drained(tasks))
    }

    /** Nobody oversleeps. */
    ghost predicate Punctual() {
      forall t <- tasks :: tasks[t].status.Sleeping? ==> now < tasks[t].status.wake
    }

    ghost function Set(t: Task, info: Info): Clock {
      this.(tasks := tasks[t := info])
    }
  }

  /** What can happen to the clock; `Touch` and `Forget` stand for every kernel call that
      acts on one task: blocking, waking by an event, suspending, changing priority... */
  datatype Step = TickInterrupt | SuspendAll | ResumeAll | Touch(t: Task, info: Info) | Forget(t: Task)

  ghost function Apply(c: Clock, s: Step): Clock {
    match s
    case TickInterrupt =>
      if c.depth == 0 then c.AdvanceTo(c.now + 1) else c.(pended := c.pended + 1)
    case SuspendAll => c.(depth := c.depth + 1)
    case ResumeAll =>
      if c.depth == 1 then c.Drain().AdvanceTo(c.now + c.pended).(pended := 0, depth := 0)
      else if c.depth == 0 then c
      else c.(depth := c.depth - 1)
    case Touch(t, info) => c.Set(t, info)
    case Forget(t) => c.(tasks := c.tasks - {t})
  }

  lemma ResumeIs(c: Clock)
    requires c.depth == 1
    ensures Apply(c, ResumeAll)
         == Clock(c.now + c.pended, 0, 0, WokenBy(Drained(c.tasks), c.now + c.pended))
  {
  }

  ghost function Run(c: Clock, steps: seq<Step>): Clock
    decreases |steps|
  {
    if steps == [] then c else Run(Apply(c, steps[0]), steps[1..])
  }

  ghost function Interrupts(steps: seq<Step>): nat {
    if steps == [] then 0
    else (if steps[0] == TickInterrupt then 1 else 0) + Interrupts(steps[1..])
  }

  /** No step but the passing of time changes what `t` waits for; its priority may change. */
  ghost predicate LeavesAlone(c: Clock, steps: seq<Step>, t: Task)
    decreases |steps|
  {
    steps == [] || (Ignores(c, steps[0], t) && LeavesAlone(Apply(c, steps[0]), steps[1..], t))
  }

  ghost predicate Ignores(c: Clock, step: Step, t: Task) {
    && (step.Touch? && step.t == t ==> t in c.tasks && step.info == c.tasks[t].(priority := step.info.priority))
    && (step.Forget? ==> step.t != t)
  }

  /** The priority of `t` after the last change. */
  ghost function PriorityAfter(p: nat, steps: seq<Step>, t: Task): nat
    decreases |steps|
  {
    if steps == [] then p
    else PriorityAfter(if steps[0].Touch? && steps[0].t == t then steps[0].info.priority else p, steps[1..], t)
  }

  /** A task that sleeps until tick `w`, and of which nothing else changes more than the
      priority, leaves the sleep and its event list at tick `w` and not one tick sooner or
      later. */
  lemma {:induction false} ExactWakeUp(c: Clock, steps: seq<Step>, t: Task, w: nat)
    requires t in c.tasks && c.tasks[t].status == Sleeping(w) && c.now < w
    requires c.tasks[t].waitsOn != Some(PendingReady)
    requires LeavesAlone(c, steps, t)
    ensures var e, p := Run(c, steps), PriorityAfter(c.tasks[t].priority, steps, t);
            t in e.tasks
            && e.tasks[t] == (if e.now < w then c.tasks[t] else c.tasks[t].Woken()).(priority := p)
    decreases |steps|
  {
    if steps != [] {
      var d := Apply(c, steps[0]);
      if d.now < w {
        ExactWakeUp(d, steps[1..], t, w);
      } else {
        WokenStays(d, steps[1..], t);
      }
    }
  }

  /** A task that blocks at tick N for d ticks, whether or not it waits for an event too, is
      ready again from tick N + d on and blocked until then. */
  lemma BlockedFor(c: Clock, t: Task, d: nat, event: Option<ListName>, priority: nat, steps: seq<Step>)
    requires d >= 1 && event != Some(PendingReady)
    requires LeavesAlone(Apply(c, Touch(t, Info(Sleeping(c.now + d), event, priority))), steps, t)
    ensures var e := Run(Apply(c, Touch(t, Info(Sleeping(c.now + d), event, priority))), steps);
            var p := PriorityAfter(priority, steps, t);
            t in e.tasks
            && e.tasks[t] == if e.now < c.now + d then Info(Sleeping(c.now + d), event, p)
                             else Info(Runnable, None, p)
  {
    ExactWakeUp(Apply(c, Touch(t, Info(Sleeping(c.now + d), event, priority))), steps, t, c.now + d);
  }

  lemma {:induction false} WokenStays(c: Clock, steps: seq<Step>, t: Task)
    requires t in c.tasks && c.tasks[t] == c.tasks[t].Woken()
    requires LeavesAlone(c, steps, t)
    ensures var e := Run(c, steps);
            && c.now <= e.now && t in e.tasks
            && e.tasks[t] == c.tasks[t].(priority := PriorityAfter(c.tasks[t].priority, steps, t))
    decreases |steps|
  {
    if steps != [] {
      WokenStays(Apply(c, steps[0]), steps[1..], t);
    }
  }

  /** `step` does not block, suspend or delete `t`. */
  ghost predicate Spares(step: Step, t: Task) {
    && (step.Touch? && step.t == t ==> step.info.status.Runnable?)
    && (step.Forget? ==> step.t != t)
  }

  /** Nothing but a call on the task itself stops a task that can run. */
  lemma {:induction false} StaysRunnable(c: Clock, steps: seq<Step>, t: Task)
    requires t in c.tasks && c.tasks[t].status.Runnable?
    requires forall i :: 0 <= i < |steps| ==> Spares(steps[i], t)
    ensures t in Run(c, steps).tasks && Run(c, steps).tasks[t].status.Runnable?
    decreases |steps|
  {
    if steps != [] {
      assert Spares(steps[0], t);
      StaysRunnable(Apply(c, steps[0]), steps[1..], t);
    }
  }

  /** No tick is lost or made up, however the scheduler is suspended and resumed. */
  lemma {:induction false} TicksConserved(c: Clock, steps: seq<Step>)
    ensures Run(c, steps).now + Run(c, steps).pended == c.now + c.pended + Interrupts(steps)
    decreases |steps|
  {
    if steps != [] {
      TicksConserved(Apply(c, steps[0]), steps[1..]);
    }
  }

  /** Resuming the scheduler is draining the pending-ready list and then delivering every
      pended tick on its own. */
  lemma ResumeDeliversEachTick(c: Clock)
    requires c.depth == 1 && c.Punctual()
    ensures Apply(c, ResumeAll)
         == Run(c.Drain().(depth := 0, pended := 0), Ticks(c.pended))
  {
    DeliverTicks(c.Drain().(depth := 0, pended := 0), c.pended);
    assert c.pended == 0 ==> c.Drain().AdvanceTo(c.now) == c.Drain();
  }

  ghost function Ticks(k: nat): seq<Step> {
    if k == 0 then [] else [TickInterrupt] + Ticks(k - 1)
  }

  lemma {:induction false} DeliverTicks(c: Clock, k: nat)
    requires c.depth == 0
    ensures Run(c, Ticks(k)) == if k == 0 then c else c.AdvanceTo(c.now + k)
    decreases k
  {
    if k > 0 {
      assert Ticks(k)[1..] == Ticks(k - 1);
      DeliverTicks(c.AdvanceTo(c.now + 1), k - 1);
      WokenTwice(c.tasks, c.now + 1, c.now + k);
    }
  }

  // ------------------------------------------------------------- nesting of suspensions

  ghost function Suspends(steps: seq<Step>): nat {
    if steps == [] then 0 else (if steps[0] == SuspendAll then 1 else 0) + Suspends(steps[1..])
  }

  ghost function Resumes(steps: seq<Step>): nat {
    if steps == [] then 0 else (if steps[0] == ResumeAll then 1 else 0) + Resumes(steps[1..])
  }

  /** A scheduler that is suspended `depth` times is never resumed more often. */
  ghost predicate Paired(depth: nat, steps: seq<Step>)
    decreases |steps|
  {
    steps == [] ||
    match steps[0]
    case SuspendAll => Paired(depth + 1, steps[1..])
    case ResumeAll => depth > 0 && Paired(depth - 1, steps[1..])
    case _ => Paired(depth, steps[1..])
  }

  /** The depth is what has been suspended and not yet resumed. */
  lemma {:induction false} DepthIsConserved(c: Clock, steps: seq<Step>)
    requires Paired(c.depth, steps)
    ensures Run(c, steps).depth == c.depth + Suspends(steps) - Resumes(steps)
    decreases |steps|
  {
    if steps != [] {
      DepthIsConserved(Apply(c, steps[0]), steps[1..]);
    }
  }

  /** Each suspension is undone by one resumption: a running scheduler that is suspended and
      resumed equally often runs again, with no tick held back. */
  lemma SuspendedAndResumed(c: Clock, steps: seq<Step>)
    requires c.depth == 0 && c.pended == 0 && Paired(0, steps) && Suspends(steps) == Resumes(steps)
    ensures Run(c, steps).depth == 0 && Run(c, steps).pended == 0
    ensures Run(c, steps).now == c.now + Interrupts(steps)
  {
    DepthIsConserved(c, steps);
    NoneHeldBack(c, steps);
    TicksConserved(c, steps);
  }

  lemma {:induction false} NoneHeldBack(c: Clock, steps: seq<Step>)
    requires c.depth == 0 ==> c.pended == 0
    ensures Run(c, steps).depth == 0 ==> Run(c, steps).pended == 0
    decreases |steps|
  {
    if steps != [] {
      NoneHeldBack(Apply(c, steps[0]), steps[1..]);
    }
  }

  /** Until the last of them, a suspended scheduler holds the ticks back. */
  lemma {:induction false} HeldBack(c: Clock, steps: seq<Step>)
    requires c.depth > 0 && Paired(c.depth, steps)
    requires forall i :: 0 <= i <= |steps| ==> c.depth + Suspends(steps[..i]) > Resumes(steps[..i])
    ensures Run(c, steps).now == c.now && Run(c, steps).pended == c.pended + Interrupts(steps)
    ensures Run(c, steps).depth > 0
    decreases |steps|
  {
    if steps != [] {
      var rest, d := steps[1..], Apply(c, steps[0]);
      assert steps[..1][1..] == [] && steps[..1][0] == steps[0];
      assert Suspends(steps[..1]) == if steps[0] == SuspendAll then 1 else 0;
      assert Resumes(steps[..1]) == if steps[0] == ResumeAll then 1 else 0;
      assert d.depth > 0;
      forall i | 0 <= i <= |rest| ensures d.depth + Suspends(rest[..i]) > Resumes(rest[..i]) {
        assert steps[..i + 1][1..] == rest[..i] && steps[..i + 1][0] == steps[0];
      }
      HeldBack(d, rest);
    }
  }
}
