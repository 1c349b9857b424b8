/** Blocking on a queue (lib/FreeRTOS/queue.c): tasks, interrupts and the lock counts through
    which an interrupt leaves a note that a waiting task must be woken. */
module QueueLocks {
  import opened Rings
  import Clocks

  type Task = Clocks.Task

  // queueUNLOCKED and queueLOCKED_UNMODIFIED; the counts are of type int8_t
  const UNLOCKED: int := -1
  const LOCKED_UNMODIFIED: int := 0
  const MOST: int := 127

  function Plus1(lock: int): int {
    if lock == MOST then -MOST - 1 else lock + 1
  }

  function Noted(lock: int): nat {
    if lock > 0 then lock else 0
  }

  /** How far the task that has suspended the scheduler has got: it holds the lock, has seen
      an empty (or full) queue, or is in one of the two critical sections of the unlocking. */
  datatype Phase =
    | Running | Locked(t: Task, receiving: bool) | Blocking(t: Task, receiving: bool)
    | UnlockingTx | UnlockingRx

  /** `wokenR` and `wokenS` are the tasks taken off the two event lists that have not yet
      come round to look at the queue again. */
  datatype State = State(
    messages: nat, length: nat, itemSize: nat, txLock: int, rxLock: int,
    receivers: seq<Task>, senders: seq<Task>, wokenR: set<Task>, wokenS: set<Task>, phase: Phase)
  {
    predicate Waiting(t: Task) {
      t in receivers || t in senders
    }

    predicate Idle(t: Task) {
      !Waiting(t) && t !in wokenR && t !in wokenS
    }

    /** xTaskRemoveFromEventList on `k` waiting receivers at most. */
    ghost function WakeReceivers(k: nat): State {
      this.(receivers := Rest(receivers, k), wokenR := wokenR + First(receivers, k))
    }

    ghost function WakeSenders(k: nat): State {
      this.(senders := Rest(senders, k), wokenS := wokenS + First(senders, k))
    }
  }

  /** The first `k` tasks of a list, if there are as many, and the others. */
  ghost function First(q: seq<Task>, k: nat): set<Task> {
    SetOf(if k < |q| then q[..k] else q)
  }

  function Rest(q: seq<Task>, k: nat): seq<Task> {
    if k < |q| then q[k..] else []
  }

  lemma RestIs(q: seq<Task>, k: nat)
    ensures Rest(q, k) == if k < |q| then q[k..] else []
    ensures k == 0 ==> Rest(q, k) == q
  {
  }

  lemma OneMore(q: seq<Task>, k: nat)
    ensures First(q, k) + First(Rest(q, k), 1) == First(q, k + 1)
    ensures Rest(Rest(q, k), 1) == Rest(q, k + 1)
    ensures First(q, 0) == {} && Rest(q, 0) == q
  {
    if k < |q| {
      assert q[..k + 1] == q[..k] + [q[k]];
      assert q[k..] == [q[k]] + q[k + 1..];
    }
  }

  lemma FirstAndRest(q: seq<Task>, k: nat)
    requires Distinct(q)
    ensures Distinct(Rest(q, k)) && First(q, k) !! SetOf(Rest(q, k))
    ensures First(q, k) + SetOf(Rest(q, k)) == SetOf(q)
    ensures |First(q, k)| == |q| - |Rest(q, k)|
    ensures Rest(q, k) != [] ==> |q| - |Rest(q, k)| == k
  {
    var f := if k < |q| then q[..k] else q;
    DistinctPairs(q);
    DistinctPairs(f);
    DistinctPairs(Rest(q, k));
    SetSize(f);
    assert q == f + Rest(q, k);
  }

  datatype Step =
    | Send(t: Task, overwrite: bool) | Receive(t: Task) | Peek(t: Task)
    | Lock(t: Task, receiving: bool) | Check(expired: bool) | Place(position: nat)
    | UnlockTx | UnlockRx
    | SendFromISR(overwrite: bool) | ReceiveFromISR
    | Expire(t: Task) | Reset

  /** A step that can happen in `s`. Tasks run only while the scheduler is not suspended, a
      woken task first repeats what it was woken for, an interrupt is not the 128th of its kind
      in one lock period, and a reset finds no more senders than it wakes (or woken ones for
      all the space). */
  ghost predicate Enabled(s: State, step: Step) {
    match step
    case Send(t, overwrite) =>
      s.phase.Running? && !s.Waiting(t) && t !in s.wokenR && (overwrite ==> s.length == 1)
    case Receive(t) => s.phase.Running? && !s.Waiting(t) && t !in s.wokenS
    case Peek(t) => s.phase.Running? && !s.Waiting(t) && t !in s.wokenS
    case Lock(t, _) => s.phase.Running? && s.Idle(t)
    case Check(_) => s.phase.Locked?
    case Place(position) =>
      s.phase.Blocking? && position <= if s.phase.receiving then |s.receivers| else |s.senders|
    case UnlockTx => s.phase.UnlockingTx?
    case UnlockRx => s.phase.UnlockingRx?
    case SendFromISR(overwrite) => s.txLock < MOST && (overwrite ==> s.length == 1)
    case ReceiveFromISR => s.rxLock < MOST
    case Expire(t) => s.phase.Running? && s.Waiting(t)
    case Reset => s.phase.Running? && ResetServes(s)
  }

  /** The one sender that a reset wakes is the only one, or completes those woken. */
  predicate ResetServes(s: State) {
    |s.senders| <= 1 || s.length <= |s.wokenS| + 1
  }

  // prvCopyDataToQueue, as far as the count goes; it looks at the item size first
  function Added(s: State, overwrite: bool): State {
    if s.itemSize > 0 && overwrite && s.messages > 0 then s else s.(messages := s.messages + 1)
  }

  function Taken(s: State): State
    requires s.messages > 0
  {
    s.(messages := s.messages - 1)
  }

  ghost function Apply(s: State, step: Step): State {
    match step
    case Send(t, overwrite) =>
      var r := s.(wokenS := s.wokenS - {t});
      if s.messages < s.length || overwrite then Added(r, overwrite).WakeReceivers(1) else r
    case Receive(t) =>
      var r := s.(wokenR := s.wokenR - {t});
      if s.messages > 0 then Taken(r).WakeSenders(1) else r
    case Peek(t) =>
      var r := s.(wokenR := s.wokenR - {t});
      if s.messages > 0 then r.WakeReceivers(1) else r
    case Lock(t, receiving) =>
      s.(txLock := if s.txLock == UNLOCKED then LOCKED_UNMODIFIED else s.txLock,
         rxLock := if s.rxLock == UNLOCKED then LOCKED_UNMODIFIED else s.rxLock,
         phase := Locked(t, receiving))
    case Check(expired) =>
      if s.phase.Locked? && !expired
         && (if s.phase.receiving then s.messages == 0 else s.messages == s.length)
      then s.(phase := Blocking(s.phase.t, s.phase.receiving))
      else s.(phase := UnlockingTx)
    case Place(p) =>
      if !s.phase.Blocking? then s
      else if s.phase.receiving then
        if p <= |s.receivers| then
          s.(receivers := s.receivers[..p] + [s.phase.t] + s.receivers[p..], phase := UnlockingTx)
        else s
      else
        if p <= |s.senders| then
          s.(senders := s.senders[..p] + [s.phase.t] + s.senders[p..], phase := UnlockingTx)
        else s
    case UnlockTx => s.WakeReceivers(Noted(s.txLock)).(txLock := UNLOCKED, phase := UnlockingRx)
    case UnlockRx => s.WakeSenders(Noted(s.rxLock)).(rxLock := UNLOCKED, phase := Running)
    case SendFromISR(overwrite) =>
      if s.messages < s.length || overwrite then
        var r := Added(s, overwrite);
        if s.txLock == UNLOCKED then r.WakeReceivers(1) else r.(txLock := Plus1(s.txLock))
      else s
    case ReceiveFromISR =>
      if s.messages > 0 then
        if s.rxLock == UNLOCKED then Taken(s).WakeSenders(1) else Taken(s).(rxLock := Plus1(s.rxLock))
      else s
    case Expire(t) =>
      s.(receivers := Without(s.receivers, t), senders := Without(s.senders, t))
    case Reset => s.(messages := 0, txLock := UNLOCKED, rxLock := UNLOCKED).WakeSenders(1)
  }

  // ------------------------------------------------------------------ the invariant

  ghost predicate LocksMatch(s: State) {
    match s.phase
    case Running => s.txLock == UNLOCKED && s.rxLock == UNLOCKED
    case UnlockingRx => s.txLock == UNLOCKED && 0 <= s.rxLock <= MOST
    case _ => 0 <= s.txLock <= MOST && 0 <= s.rxLock <= MOST
  }

  /** Nobody is in two places. */
  ghost predicate Apart(s: State) {
    && Distinct(s.receivers) && Distinct(s.senders)
    && (forall t <- s.receivers :: t !in s.senders && t !in s.wokenR && t !in s.wokenS)
    && (forall t <- s.senders :: t !in s.wokenR && t !in s.wokenS)
    && (s.phase.Locked? || s.phase.Blocking? ==> s.Idle(s.phase.t))
  }

  /** No wake-up is lost: as long as tasks wait to receive, every message is spoken for, by a
      task woken for it or by a note that an interrupt left in the lock count. */
  ghost predicate ReceiversServed(s: State) {
    && (s.receivers != [] ==> s.messages <= |s.wokenR| + Noted(s.txLock))
    && (s.phase.Blocking? && s.phase.receiving ==> s.messages <= Noted(s.txLock))
  }

  /** The same for tasks waiting to send, and free spaces. */
  ghost predicate SendersServed(s: State) {
    && (s.senders != [] ==> s.length - s.messages <= |s.wokenS| + Noted(s.rxLock))
    && (s.phase.Blocking? && !s.phase.receiving ==> s.length - s.messages <= Noted(s.rxLock))
  }

  ghost predicate Inv(s: State) {
    (s.itemSize > 0 ==> s.messages <= s.length) && LocksMatch(s) && Apart(s) && ReceiversServed(s) && SendersServed(s)
  }

  // ------------------------------------------------------------- every step keeps it

  lemma WokenReceivers(s: State, k: nat)
    requires Apart(s)
    ensures var r := s.WakeReceivers(k);
            && Apart(r) && |r.wokenR| == |s.wokenR| + |s.receivers| - |r.receivers|
            && (r.receivers != [] ==> |s.receivers| - |r.receivers| == k)
  {
    hide First, Rest;
    FirstAndRest(s.receivers, k);
    assert forall t :: t in s.receivers <==> t in SetOf(s.receivers);
    assert forall t :: t in Rest(s.receivers, k) <==> t in SetOf(Rest(s.receivers, k));
    assert s.wokenR !! First(s.receivers, k);
  }

  lemma WokenSenders(s: State, k: nat)
    requires Apart(s)
    ensures var r := s.WakeSenders(k);
            && Apart(r) && |r.wokenS| == |s.wokenS| + |s.senders| - |r.senders|
            && (r.senders != [] ==> |s.senders| - |r.senders| == k)
  {
    hide First, Rest;
    FirstAndRest(s.senders, k);
    assert forall t :: t in s.senders <==> t in SetOf(s.senders);
    assert forall t :: t in Rest(s.senders, k) <==> t in SetOf(Rest(s.senders, k));
    assert s.wokenS !! First(s.senders, k);
  }

  /** A woken task has come round: it is no longer counted. */
  lemma CameRound(s: State, t: Task)
    requires Apart(s)
    ensures Apart(s.(wokenS := s.wokenS - {t})) && Apart(s.(wokenR := s.wokenR - {t}))
    ensures |s.wokenS - {t}| == |s.wokenS| - if t in s.wokenS then 1 else 0
    ensures |s.wokenR - {t}| == |s.wokenR| - if t in s.wokenR then 1 else 0
  {
  }

  /** The messages and the lock counts do not matter to where the tasks are. */
  lemma StaysApart(s: State, s': State)
    requires Apart(s) && s' == s.(messages := s'.messages, txLock := s'.txLock, rxLock := s'.rxLock)
    ensures Apart(s')
  {
  }

  lemma SendKeeps(s: State, t: Task, overwrite: bool)
    requires Inv(s) && Enabled(s, Send(t, overwrite))
    ensures Inv(Apply(s, Send(t, overwrite)))
  {
    hide Apart;
    CameRound(s, t);
    var r := s.(wokenS := s.wokenS - {t});
    if s.messages < s.length || overwrite {
      StaysApart(r, Added(r, overwrite));
      WokenReceivers(Added(r, overwrite), 1);
    }
  }

  lemma ReceiveKeeps(s: State, t: Task)
    requires Inv(s) && Enabled(s, Receive(t))
    ensures Inv(Apply(s, Receive(t)))
  {
    hide Apart;
    CameRound(s, t);
    var r := s.(wokenR := s.wokenR - {t});
    if s.messages > 0 {
      StaysApart(r, Taken(r));
      WokenSenders(Taken(r), 1);
    }
  }

  lemma PeekKeeps(s: State, t: Task)
    requires Inv(s) && Enabled(s, Peek(t))
    ensures Inv(Apply(s, Peek(t)))
  {
    hide Apart;
    CameRound(s, t);
    WokenReceivers(s.(wokenR := s.wokenR - {t}), 1);
  }

  lemma PlaceKeeps(s: State, p: nat)
    requires Inv(s) && Enabled(s, Place(p))
    ensures Inv(Apply(s, Place(p)))
  {
    if s.phase.receiving {
      InsertDistinct(s.receivers, p, s.phase.t);
      InsertMembers(s.receivers, p, s.phase.t);
    } else {
      InsertDistinct(s.senders, p, s.phase.t);
      InsertMembers(s.senders, p, s.phase.t);
    }
  }

  lemma UnlockKeeps(s: State, step: Step)
    requires Inv(s) && Enabled(s, step) && (step == UnlockTx || step == UnlockRx)
    ensures Inv(Apply(s, step))
  {
    WokenReceivers(s, Noted(s.txLock));
    WokenSenders(s, Noted(s.rxLock));
  }

  lemma SendFromISRKeeps(s: State, overwrite: bool)
    requires Inv(s) && Enabled(s, SendFromISR(overwrite))
    ensures Inv(Apply(s, SendFromISR(overwrite)))
  {
    hide Apart, First, Rest;
    var r := Added(s, overwrite);
    StaysApart(s, r);
    if s.txLock == UNLOCKED {
      WokenReceivers(r, 1);
    } else {
      StaysApart(s, r.(txLock := Plus1(s.txLock)));
    }
  }

  lemma ReceiveFromISRKeeps(s: State)
    requires Inv(s) && Enabled(s, ReceiveFromISR)
    ensures Inv(Apply(s, ReceiveFromISR))
  {
    hide Apart, First, Rest;
    if s.messages > 0 {
      StaysApart(s, Taken(s));
      if s.rxLock == UNLOCKED {
        WokenSenders(Taken(s), 1);
      } else {
        StaysApart(s, Taken(s).(rxLock := Plus1(s.rxLock)));
      }
    }
  }

  lemma ExpireKeeps(s: State, t: Task)
    requires Inv(s) && Enabled(s, Expire(t))
    ensures Inv(Apply(s, Expire(t)))
  {
    WithoutMembers(s.receivers, t);
    WithoutMembers(s.senders, t);
  }

  /** xQueueReset wakes one sender, however many there are and however much space it makes:
      the free spaces are all spoken for if and only if that one was enough. */
  lemma ResetKeeps(s: State)
    requires Inv(s) && s.phase.Running?
    ensures Inv(Apply(s, Reset)) <==> ResetServes(s)
  {
    hide Apart, First;
    var r := s.(messages := 0, txLock := UNLOCKED, rxLock := UNLOCKED);
    StaysApart(s, r);
    WokenSenders(r, 1);
  }

  lemma StepKeeps(s: State, step: Step)
    requires Inv(s) && Enabled(s, step)
    ensures Inv(Apply(s, step))
  {
    match step
    case Send(t, overwrite) => SendKeeps(s, t, overwrite);
    case Receive(t) => ReceiveKeeps(s, t);
    case Peek(t) => PeekKeeps(s, t);
    case Place(p) => PlaceKeeps(s, p);
    case UnlockTx => UnlockKeeps(s, step);
    case UnlockRx => UnlockKeeps(s, step);
    case SendFromISR(overwrite) => SendFromISRKeeps(s, overwrite);
    case ReceiveFromISR => ReceiveFromISRKeeps(s);
    case Expire(t) => ExpireKeeps(s, t);
    case Reset => ResetKeeps(s);
    case Lock(_, _) =>
    case Check(_) =>
  }

  // ------------------------------------------------------------------------ whole runs

  /** A queue that nobody waits for. */
  ghost function Initial(messages: nat, length: nat, itemSize: nat): State {
    State(messages, length, itemSize, UNLOCKED, UNLOCKED, [], [], {}, {}, Running)
  }

  ghost predicate Possible(s: State, steps: seq<Step>)
    decreases |steps|
  {
    steps == [] || (Enabled(s, steps[0]) && Possible(Apply(s, steps[0]), steps[1..]))
  }

  ghost function Run(s: State, steps: seq<Step>): State
    decreases |steps|
  {
    if steps == [] then s else Run(Apply(s, steps[0]), steps[1..])
  }

  lemma {:induction false} RunKeeps(s: State, steps: seq<Step>)
    requires Inv(s) && Possible(s, steps)
    ensures Inv(Run(s, steps))
    decreases |steps|
  {
    if steps != [] {
      StepKeeps(s, steps[0]);
      RunKeeps(Apply(s, steps[0]), steps[1..]);
    }
  }

  /** In every interleaving of tasks and interrupts: as long as tasks wait to receive, each
      message is matched by a task woken for it or an interrupt's note, as long as tasks
      wait to send, so is each free space; so once the woken tasks have come round and the
      queue is unlocked, tasks wait to receive only on an empty queue, to send on a full one.
      With data in the items the count never exceeds the length. */
  lemma NoLostWakeUp(messages: nat, length: nat, itemSize: nat, steps: seq<Step>)
    requires messages <= length && Possible(Initial(messages, length, itemSize), steps)
    ensures var s := Run(Initial(messages, length, itemSize), steps);
            && ReceiversServed(s) && SendersServed(s) && (itemSize > 0 ==> s.messages <= s.length)
            && (s.phase.Running? && s.wokenR == {} && s.receivers != [] ==> s.messages == 0)
            && (s.phase.Running? && s.wokenS == {} && s.senders != [] ==>
                  s.messages >= s.length && (itemSize > 0 ==> s.messages == s.length))
  {
    RunKeeps(Initial(messages, length, itemSize), steps);
    SameQueue(Initial(messages, length, itemSize), steps);
  }

  lemma {:induction false} SameQueue(s: State, steps: seq<Step>)
    requires Possible(s, steps)
    ensures Run(s, steps).itemSize == s.itemSize && Run(s, steps).length == s.length
    decreases |steps|
  {
    if steps != [] {
      SameQueue(Apply(s, steps[0]), steps[1..]);
    }
  }

  // ------------------------------------------------------------- counting the messages

  /** Whether the step puts one message more into the queue: a send for which there is space,
      or that overwrites, unless it replaces a message with data. */
  ghost predicate PutsOne(s: State, step: Step) {
    match step
    case Send(_, overwrite) => Stores(s, overwrite)
    case SendFromISR(overwrite) => Stores(s, overwrite)
    case _ => false
  }

  ghost predicate Stores(s: State, overwrite: bool) {
    if overwrite then s.messages == 0 || s.itemSize == 0 else s.messages < s.length
  }

  ghost predicate TakesOne(s: State, step: Step) {
    (step.Receive? || step.ReceiveFromISR?) && s.messages > 0
  }

  ghost function Puts(s: State, steps: seq<Step>): nat
    decreases |steps|
  {
    if steps == [] then 0
    else (if PutsOne(s, steps[0]) then 1 else 0) + Puts(Apply(s, steps[0]), steps[1..])
  }

  ghost function Takes(s: State, steps: seq<Step>): nat
    decreases |steps|
  {
    if steps == [] then 0
    else (if TakesOne(s, steps[0]) then 1 else 0) + Takes(Apply(s, steps[0]), steps[1..])
  }

  /** The messages that resets have thrown away. */
  ghost function Dropped(s: State, steps: seq<Step>): nat
    decreases |steps|
  {
    if steps == [] then 0
    else (if steps[0].Reset? then s.messages else 0) + Dropped(Apply(s, steps[0]), steps[1..])
  }

  /** No message is lost or made up: in every run, the messages there are, were taken and were
      thrown away are those that there were and that were put in, one by one. */
  lemma {:induction false} MessagesConserved(s: State, steps: seq<Step>)
    requires Possible(s, steps)
    ensures Run(s, steps).messages + Takes(s, steps) + Dropped(s, steps) == s.messages + Puts(s, steps)
    decreases |steps|
  {
    if steps != [] {
      StepCounts(s, steps[0]);
      MessagesConserved(Apply(s, steps[0]), steps[1..]);
    }
  }

  lemma StepCounts(s: State, step: Step)
    requires Enabled(s, step)
    ensures Apply(s, step).messages + (if TakesOne(s, step) then 1 else 0) + (if step.Reset? then s.messages else 0)
         == s.messages + (if PutsOne(s, step) then 1 else 0)
  {
  }

  /** At most one task is woken by any step but an unlocking, the first of its list; and only
      a send or a peek wakes a receiver, only a receive or a reset a sender. */
  lemma StepWakes(s: State, step: Step)
    requires Enabled(s, step) && !step.UnlockTx? && !step.UnlockRx?
    ensures Apply(s, step).wokenR - s.wokenR <= First(s.receivers, 1)
    ensures Apply(s, step).wokenS - s.wokenS <= First(s.senders, 1)
    ensures !(Apply(s, step).wokenR <= s.wokenR) ==> step.Send? || step.SendFromISR? || step.Peek?
    ensures !(Apply(s, step).wokenS <= s.wokenS) ==> TakesOne(s, step) || step.Reset?
  {
  }

  /** Two overwrites of a semaphore leave it above its length, so that a task that finds no
      space is not made to wait for any. */
  lemma OverwrittenSemaphore()
    ensures var s, twice := Initial(0, 1, 0), [Send(1, true), Send(1, true)];
            Possible(s, twice) && Run(s, twice) == s.(messages := 2)
  {
    var s := Initial(0, 1, 0);
    var none: set<Task> := {};
    assert none - {1} == none;
    var once := [Send(1, true)];
    assert Apply(s, Send(1, true)) == s.(messages := 1);
    assert Apply(s.(messages := 1), Send(1, true)) == s.(messages := 2);
    assert [Send(1, true), Send(1, true)][1..] == once && once[1..] == [];
    assert Possible(s.(messages := 1), once) && Run(s.(messages := 1), once) == s.(messages := 2);
  }

  // ----------------------------------------------------------- the width of the lock count

  ghost function Posted(s: State, k: nat): State {
    if k == 0 then s else Apply(Posted(s, k - 1), SendFromISR(false))
  }

  ghost function CountAfter(k: nat): int {
    if k <= MOST then k else if k <= 2 * MOST + 1 then k - 2 * (MOST + 1) else UNLOCKED
  }

  /** How many of `k` posts there is space for, and how many of `k` fetches a message. */
  ghost function Accepted(s: State, k: nat): nat {
    Min(k, if s.messages < s.length then s.length - s.messages else 0)
  }

  ghost function Available(s: State, k: nat): nat {
    Min(k, s.messages)
  }

  ghost function Min(a: nat, b: nat): nat {
    if a < b then a else b
  }

  /** The interrupts that find the 8-bit count back at -1, and so take the queue for unlocked. */
  ghost function Unnoted(k: nat): nat {
    if k <= 2 * MOST + 1 then 0 else k - (2 * MOST + 1)
  }

  /** Interrupts that post to a locked queue just count, until the 8-bit count is back at -1;
      from then on each wakes a receiver, if there is one. */
  lemma {:induction false} PostedIs(s: State, k: nat)
    requires Apart(s) && s.txLock == LOCKED_UNMODIFIED
    ensures var r, n := Posted(s, k), Accepted(s, k);
            && Apart(r) && r.messages == s.messages + n && r.length == s.length && r.txLock == CountAfter(n)
            && |r.receivers| == |s.receivers| - Min(|s.receivers|, Unnoted(n))
            && |r.wokenR| == |s.wokenR| + Min(|s.receivers|, Unnoted(n))
            && r.phase == s.phase
  {
    hide Apart, First;
    if k > 0 {
      PostedIs(s, k - 1);
      var q := Posted(s, k - 1);
      if q.messages < q.length {
        OnePost(q);
      }
    }
  }

  lemma OnePost(q: State)
    requires Apart(q) && q.messages < q.length
    ensures var r := Apply(q, SendFromISR(false));
            && Apart(r) && r.messages == q.messages + 1 && r.length == q.length && r.phase == q.phase
            && if q.txLock == UNLOCKED then
                 && r.txLock == UNLOCKED
                 && |r.receivers| == |q.receivers| - Min(|q.receivers|, 1)
                 && |r.wokenR| == |q.wokenR| + Min(|q.receivers|, 1)
               else r.txLock == Plus1(q.txLock) && r.receivers == q.receivers && r.wokenR == q.wokenR
  {
    hide Apart, First;
    StaysApart(q, Added(q, false));
    StaysApart(q, Added(q, false).(txLock := Plus1(q.txLock)));
    WokenReceivers(Added(q, false), 1);
  }

  /** However many tasks wait and however often interrupts post to the locked queue: the
      unlocking leaves every message spoken for if and only if nobody waits, or the posts
      are at most 127, or so many that all waiting tasks were woken past a wrapped count, or
      earlier wake-ups happen to cover them. */
  lemma LockCountReaches127(s: State, k: nat)
    requires Inv(s) && s.phase == UnlockingTx && s.txLock == LOCKED_UNMODIFIED
    ensures var n := Accepted(s, k);
            ReceiversServed(Apply(Posted(s, k), UnlockTx)) <==>
            || s.receivers == [] || n <= MOST || |s.receivers| <= Unnoted(n)
            || s.messages + n <= |s.wokenR| + Unnoted(n)
  {
    hide Apart, First;
    PostedIs(s, k);
    WokenReceivers(Posted(s, k), Noted(CountAfter(Accepted(s, k))));
  }

  ghost function Fetched(s: State, k: nat): State {
    if k == 0 then s else Apply(Fetched(s, k - 1), ReceiveFromISR)
  }

  lemma {:induction false} FetchedIs(s: State, k: nat)
    requires Apart(s) && s.rxLock == LOCKED_UNMODIFIED
    ensures var r, n := Fetched(s, k), Available(s, k);
            && Apart(r) && r.messages == s.messages - n && r.length == s.length && r.rxLock == CountAfter(n)
            && |r.senders| == |s.senders| - Min(|s.senders|, Unnoted(n))
            && |r.wokenS| == |s.wokenS| + Min(|s.senders|, Unnoted(n))
            && r.phase == s.phase
  {
    hide Apart;
    if k > 0 {
      FetchedIs(s, k - 1);
      var q := Fetched(s, k - 1);
      if q.messages > 0 {
        StaysApart(q, Taken(q));
        StaysApart(q, Taken(q).(rxLock := Plus1(q.rxLock)));
        WokenSenders(Taken(q), 1);
      }
    }
  }

  /** The same for interrupts that receive while tasks wait to send. */
  lemma RxLockCountReaches127(s: State, k: nat)
    requires Inv(s) && s.phase == UnlockingRx && s.rxLock == LOCKED_UNMODIFIED
    ensures var n := Available(s, k);
            SendersServed(Apply(Fetched(s, k), UnlockRx)) <==>
            || s.senders == [] || n <= MOST || |s.senders| <= Unnoted(n)
            || s.length - s.messages + n <= |s.wokenS| + Unnoted(n)
  {
    hide Apart, First;
    FetchedIs(s, k);
    WokenSenders(Fetched(s, k), Noted(CountAfter(Available(s, k))));
  }

  /** Tasks 0 to n - 1 wait, to receive on an empty queue or to send on a full one. */
  ghost function Crowd(n: nat, length: nat, itemSize: nat, receiving: bool): State {
    var q := seq(n, i => i);
    Initial(if receiving then 0 else length, length, itemSize)
    .(receivers := if receiving then q else [], senders := if receiving then [] else q)
  }

  ghost function Joining(n: nat, receiving: bool): seq<Step> {
    [Lock(n, receiving), Check(false), Place(n), UnlockTx, UnlockRx]
  }

  ghost function Gathering(n: nat, receiving: bool): seq<Step> {
    if n == 0 then [] else Gathering(n - 1, receiving) + Joining(n - 1, receiving)
  }

  lemma {:induction false} RunSplit(s: State, a: seq<Step>, b: seq<Step>)
    ensures Possible(s, a + b) <==> Possible(s, a) && Possible(Run(s, a), b)
    ensures Run(s, a + b) == Run(Run(s, a), b)
    decreases |a|
  {
    hide Enabled, Apply;
    if a == [] {
      assert a + b == b;
    } else {
      RunSplit(Apply(s, a[0]), a[1..], b);
      assert (a + b)[1..] == a[1..] + b;
    }
  }

  lemma StepOn(s: State, r: State, steps: seq<Step>, i: nat)
    requires i < |steps| && Enabled(s, steps[i]) && Apply(s, steps[i]) == r
    ensures Possible(s, steps[i..]) <==> Possible(r, steps[i + 1..])
    ensures Run(s, steps[i..]) == Run(r, steps[i + 1..])
  {
    assert steps[i..][1..] == steps[i + 1..];
  }

  /** Unlocking without a note. */
  lemma UnlockedAgain(s: State)
    requires s.phase == UnlockingTx && s.txLock == LOCKED_UNMODIFIED && s.rxLock == LOCKED_UNMODIFIED
    ensures Enabled(s, UnlockTx) && Apply(s, UnlockTx) == s.(txLock := UNLOCKED, phase := UnlockingRx)
    ensures var r := s.(txLock := UNLOCKED, phase := UnlockingRx);
            Enabled(r, UnlockRx) && Apply(r, UnlockRx) == s.(txLock := UNLOCKED, rxLock := UNLOCKED, phase := Running)
  {
    WakeOneMore(s, 0);
    WakeOneMore(s.(txLock := UNLOCKED, phase := UnlockingRx), 0);
  }

  lemma CrowdGrows(n: nat, length: nat, itemSize: nat, receiving: bool)
    ensures var s, join := Crowd(n, length, itemSize, receiving), Joining(n, receiving);
            Possible(s, join) && Run(s, join) == Crowd(n + 1, length, itemSize, receiving)
  {
    var s, t := Crowd(n, length, itemSize, receiving), Crowd(n + 1, length, itemSize, receiving);
    var join := Joining(n, receiving);
    assert Possible(t, []) && Run(t, []) == t && join[0..] == join && join[5..] == [];
    hide Run, Possible, State.WakeReceivers, State.WakeSenders;
    assert seq(n, i => i)[..n] + [n] + seq(n, i => i)[n..] == seq(n + 1, i => i);
    var locked := s.(txLock := LOCKED_UNMODIFIED, rxLock := LOCKED_UNMODIFIED, phase := Locked(n, receiving));
    var blocking := locked.(phase := Blocking(n, receiving));
    var placed := t.(txLock := LOCKED_UNMODIFIED, rxLock := LOCKED_UNMODIFIED, phase := UnlockingTx);
    StepOn(s, locked, join, 0);
    StepOn(locked, blocking, join, 1);
    StepOn(blocking, placed, join, 2);
    UnlockedAgain(placed);
    StepOn(placed, placed.(txLock := UNLOCKED, phase := UnlockingRx), join, 3);
    StepOn(placed.(txLock := UNLOCKED, phase := UnlockingRx), t, join, 4);
  }

  lemma {:induction false} CrowdGathers(n: nat, length: nat, itemSize: nat, receiving: bool)
    ensures var s := Crowd(0, length, itemSize, receiving);
            && Possible(s, Gathering(n, receiving))
            && Run(s, Gathering(n, receiving)) == Crowd(n, length, itemSize, receiving)
  {
    hide Crowd;
    if n > 0 {
      CrowdGathers(n - 1, length, itemSize, receiving);
      CrowdGrows(n - 1, length, itemSize, receiving);
      RunSplit(Crowd(0, length, itemSize, receiving), Gathering(n - 1, receiving), Joining(n - 1, receiving));
    }
  }

  /** Another task locks the queue and gives up. */
  ghost function GivingUp(n: nat, receiving: bool): seq<Step> {
    [Lock(n, receiving), Check(true)] + if receiving then [] else [UnlockTx]
  }

  ghost function AboutToUnlock(c: State, receiving: bool): State {
    if receiving then c.(txLock := LOCKED_UNMODIFIED, rxLock := LOCKED_UNMODIFIED, phase := UnlockingTx)
    else c.(rxLock := LOCKED_UNMODIFIED, phase := UnlockingRx)
  }

  lemma CrowdGivesUp(n: nat, length: nat, itemSize: nat, receiving: bool)
    ensures var c, last := Crowd(n, length, itemSize, receiving), GivingUp(n, receiving);
            Possible(c, last) && Run(c, last) == AboutToUnlock(c, receiving)
  {
    var c, last := Crowd(n, length, itemSize, receiving), GivingUp(n, receiving);
    var r := AboutToUnlock(c, receiving);
    assert Possible(r, []) && Run(r, []) == r && last[0..] == last && last[|last|..] == [];
    hide Run, Possible;
    var locked := c.(txLock := LOCKED_UNMODIFIED, rxLock := LOCKED_UNMODIFIED, phase := Locked(n, receiving));
    StepOn(c, locked, last, 0);
    StepOn(locked, locked.(phase := UnlockingTx), last, 1);
    if !receiving {
      StepOn(locked.(phase := UnlockingTx), r, last, 2);
    }
  }

  /** Both kinds of state are reached with any number `w` of waiting tasks: these queue up one
      after the other, and another task is about to unlock. */
  lemma LossesAreReachable(w: nat, length: nat, itemSize: nat, receiving: bool)
    ensures var s, steps := Initial(if receiving then 0 else length, length, itemSize),
                            Gathering(w, receiving) + GivingUp(w, receiving);
            && Possible(s, steps) && Inv(Run(s, steps))
            && Run(s, steps) == AboutToUnlock(Crowd(w, length, itemSize, receiving), receiving)
  {
    var s := Crowd(0, length, itemSize, receiving);
    assert s == Initial(if receiving then 0 else length, length, itemSize);
    CrowdGathers(w, length, itemSize, receiving);
    CrowdGivesUp(w, length, itemSize, receiving);
    RunSplit(s, Gathering(w, receiving), GivingUp(w, receiving));
    RunKeeps(s, Gathering(w, receiving) + GivingUp(w, receiving));
  }

  /** One waiting task is enough: after 128 posts to the locked queue, it waits on an unlocked
      queue with 128 messages and nobody on the way to them. */
  lemma OneReceiverStranded(itemSize: nat)
    ensures var s, steps := Initial(0, MOST + 1, itemSize), Gathering(1, true) + GivingUp(1, true);
            && Possible(s, steps)
            && var r := Apply(Apply(Posted(Run(s, steps), MOST + 1), UnlockTx), UnlockRx);
               r.phase == Running && |r.receivers| == 1 && r.wokenR == {} && r.messages == MOST + 1
  {
    hide Posted, Run, Possible, Gathering, GivingUp, State.WakeReceivers, State.WakeSenders;
    LossesAreReachable(1, MOST + 1, itemSize, true);
    var s := AboutToUnlock(Crowd(1, MOST + 1, itemSize, true), true);
    PostedIs(s, MOST + 1);
    var p := Posted(s, MOST + 1);
    assert |p.wokenR| == 0;
    WakeOneMore(p, 0);
    SendersLeave(p.(txLock := UNLOCKED, phase := UnlockingRx), Noted(p.rxLock));
  }

  lemma SendersLeave(s: State, k: nat)
    ensures s.WakeSenders(k).receivers == s.receivers && s.WakeSenders(k).messages == s.messages
    ensures s.WakeSenders(k).wokenR == s.wokenR
  {
  }

  /** And one waiting sender, after 128 receives. */
  lemma OneSenderStranded(itemSize: nat)
    ensures var s, steps := Initial(MOST + 1, MOST + 1, itemSize), Gathering(1, false) + GivingUp(1, false);
            && Possible(s, steps)
            && var r := Apply(Fetched(Run(s, steps), MOST + 1), UnlockRx);
               r.phase == Running && |r.senders| == 1 && r.wokenS == {} && r.messages == 0 && r.length == MOST + 1
  {
    hide Fetched, Run, Possible, Gathering, GivingUp, State.WakeReceivers, State.WakeSenders;
    LossesAreReachable(1, MOST + 1, itemSize, false);
    var s := AboutToUnlock(Crowd(1, MOST + 1, itemSize, false), false);
    FetchedIs(s, MOST + 1);
    var p := Fetched(s, MOST + 1);
    assert |p.wokenS| == 0;
    WakeOneMore(p, 0);
  }

  lemma FirstOfPair(q: seq<Task>)
    requires |q| == 2
    ensures First(q, 1) == {q[0]} && Rest(q, 1) == [q[1]]
  {
    assert q[..1] == [q[0]] && q[1..] == [q[1]];
  }

  /** Two tasks wait to send to a full queue of length 2; after a reset, and the send of the
      one that it wakes, the other one waits on a queue with space. */
  lemma ResetStrandsASender(itemSize: nat)
    ensures var s, steps := Initial(2, 2, itemSize), Gathering(2, false);
            && Possible(s, steps)
            && var full := Run(s, steps);
               && full.messages == full.length == 2 && full.senders == [0, 1] && !ResetServes(full)
               && var r := Apply(Apply(full, Reset), Send(0, false));
                  r.phase.Running? && r.wokenS == {} && r.senders == [1] && r.messages < r.length
  {
    hide Run, Possible, Gathering, Joining;
    var full := Crowd(2, 2, itemSize, false);
    assert Crowd(0, 2, itemSize, false) == Initial(2, 2, itemSize);
    CrowdGathers(2, 2, itemSize, false);
    assert full.senders == [0, 1];
    FirstOfPair(full.senders);
    var r := Apply(full, Reset);
    assert r.wokenS == {0} && r.senders == [1] && r.wokenS - {0} == {};
  }

  // ----------------------------------------------------------------- the code of the steps

  lemma WakeOneMore(s: State, k: nat)
    ensures s.WakeReceivers(k).WakeReceivers(1) == s.WakeReceivers(k + 1)
    ensures s.WakeSenders(k).WakeSenders(1) == s.WakeSenders(k + 1)
    ensures s.WakeReceivers(0) == s && s.WakeSenders(0) == s
  {
    hide First, Rest;
    OneMore(s.receivers, k);
    OneMore(s.senders, k);
  }

  lemma WakeNoMore(s: State, j: nat, k: nat)
    requires j <= k
    ensures s.WakeReceivers(j).receivers == [] ==> s.WakeReceivers(k) == s.WakeReceivers(j)
    ensures s.WakeSenders(j).senders == [] ==> s.WakeSenders(k) == s.WakeSenders(j)
  {
  }

  class Queue {
    const length: nat               // uxLength
    const itemSize: nat             // uxItemSize
    var messages: nat               // uxMessagesWaiting
    var txLock: int                 // cTxLock
    var rxLock: int                 // cRxLock
    var receivers: seq<Task>        // xTasksWaitingToReceive
    var senders: seq<Task>          // xTasksWaitingToSend
    ghost var wokenR: set<Task>
    ghost var wokenS: set<Task>
    ghost var phase: Phase

    ghost function View(): State
      reads this
    {
      State(messages, length, itemSize, txLock, rxLock, receivers, senders, wokenR, wokenS, phase)
    }

    constructor (messages: nat, length: nat, itemSize: nat)
      requires messages <= length
      ensures View() == Initial(messages, length, itemSize)
    {
      this.messages, this.length, this.itemSize := messages, length, itemSize;
      txLock, rxLock := UNLOCKED, UNLOCKED;
      receivers, senders := [], [];
      wokenR, wokenS, phase := {}, {}, Running;
    }

    // xTaskRemoveFromEventList on xTasksWaitingToReceive
    method WakeReceiver()
      requires receivers != []
      modifies `receivers, `wokenR
      ensures View() == old(View()).WakeReceivers(1)
    {
      wokenR := wokenR + {receivers[0]};
      receivers := receivers[1..];
    }

    // xTaskRemoveFromEventList on xTasksWaitingToSend
    method WakeSender()
      requires senders != []
      modifies `senders, `wokenS
      ensures View() == old(View()).WakeSenders(1)
    {
      wokenS := wokenS + {senders[0]};
      senders := senders[1..];
    }

    // The critical section of xQueueGenericSend, run by task `t`
    method Send(ghost t: Task, overwrite: bool) returns (sent: bool)
      modifies this
      ensures View() == Apply(old(View()), Step.Send(t, overwrite))
      ensures sent <==> old(messages) < length || overwrite
      ensures messages == old(messages) + if sent && !(overwrite && itemSize > 0 && old(messages) > 0) then 1 else 0
      ensures receivers == if sent && old(receivers) != [] then old(receivers)[1..] else old(receivers)
      ensures senders == old(senders)
    {
      wokenS := wokenS - {t};
      sent := messages < length || overwrite;
      if sent {
        if !(itemSize > 0 && overwrite && messages > 0) {
          messages := messages + 1;
        }
        if receivers != [] {
          WakeReceiver();
        }
      }
    }

    // The critical section of xQueueReceive and of xQueueSemaphoreTake
    method Receive(ghost t: Task) returns (received: bool)
      modifies this
      ensures View() == Apply(old(View()), Step.Receive(t)) && (received <==> old(messages) > 0)
      ensures messages == old(messages) - if received then 1 else 0
      ensures senders == if received && old(senders) != [] then old(senders)[1..] else old(senders)
      ensures receivers == old(receivers)
    {
      wokenR := wokenR - {t};
      received := messages > 0;
      if received {
        messages := messages - 1;
        if senders != [] {
          WakeSender();
        }
      }
    }

    // The critical section of xQueuePeek
    method Peek(ghost t: Task) returns (peeked: bool)
      modifies this
      ensures View() == Apply(old(View()), Step.Peek(t)) && (peeked <==> messages > 0)
      ensures messages == old(messages) && senders == old(senders)
      ensures receivers == if peeked && old(receivers) != [] then old(receivers)[1..] else old(receivers)
    {
      wokenR := wokenR - {t};
      peeked := messages > 0;
      if peeked && receivers != [] {
        WakeReceiver();
      }
    }

    // prvLockQueue
    method LockQueue(ghost t: Task, ghost receiving: bool)
      modifies this
      ensures View() == Apply(old(View()), Lock(t, receiving))
      ensures txLock == (if old(txLock) == UNLOCKED then LOCKED_UNMODIFIED else old(txLock))
      ensures rxLock == (if old(rxLock) == UNLOCKED then LOCKED_UNMODIFIED else old(rxLock))
      ensures messages == old(messages) && receivers == old(receivers) && senders == old(senders)
    {
      if rxLock == UNLOCKED {
        rxLock := LOCKED_UNMODIFIED;
      }
      if txLock == UNLOCKED {
        txLock := LOCKED_UNMODIFIED;
      }
      phase := Locked(t, receiving);
    }

    // xTaskCheckForTimeOut, with result `expired`, and prvIsQueueEmpty or prvIsQueueFull
    method MustBlock(receiving: bool, expired: bool) returns (block: bool)
      requires phase.Locked? && phase.receiving == receiving
      modifies `phase
      ensures View() == Apply(old(View()), Check(expired)) && (block <==> phase.Blocking?)
      ensures block <==> !expired && if receiving then messages == 0 else messages == length
    {
      block := !expired && if receiving then messages == 0 else messages == length;
      phase := if block then Blocking(phase.t, receiving) else UnlockingTx;
    }

    // The first critical section of prvUnlockQueue
    method UnlockTx()
      modifies this
      ensures View() == Apply(old(View()), Step.UnlockTx)
      ensures txLock == UNLOCKED && messages == old(messages) && senders == old(senders)
      ensures receivers == if old(txLock) <= 0 then old(receivers)
                           else if old(txLock) < |old(receivers)| then old(receivers)[old(txLock)..] else []
    {
      hide First, Rest;
      ghost var s := View();
      var lock := txLock;
      WakeOneMore(s, 0);
      while lock > LOCKED_UNMODIFIED
        invariant lock <= txLock && Noted(lock) <= Noted(txLock) == Noted(s.txLock)
        invariant View() == s.WakeReceivers(Noted(s.txLock) - Noted(lock))
        decreases lock
      {
        WakeNoMore(s, Noted(s.txLock) - lock, Noted(s.txLock));
        WakeOneMore(s, Noted(s.txLock) - lock);
        if receivers != [] {
          WakeReceiver();
        } else {
          break;
        }
        lock := lock - 1;
      }
      txLock, phase := UNLOCKED, UnlockingRx;
      RestIs(s.receivers, Noted(s.txLock));
    }

    // The second critical section of prvUnlockQueue
    method UnlockRx()
      modifies this
      ensures View() == Apply(old(View()), Step.UnlockRx)
      ensures rxLock == UNLOCKED && messages == old(messages) && receivers == old(receivers)
      ensures senders == if old(rxLock) <= 0 then old(senders)
                         else if old(rxLock) < |old(senders)| then old(senders)[old(rxLock)..] else []
    {
      hide First, Rest;
      ghost var s := View();
      var lock := rxLock;
      WakeOneMore(s, 0);
      while lock > LOCKED_UNMODIFIED
        invariant lock <= rxLock && Noted(lock) <= Noted(rxLock) == Noted(s.rxLock)
        invariant View() == s.WakeSenders(Noted(s.rxLock) - Noted(lock))
        decreases lock
      {
        WakeNoMore(s, Noted(s.rxLock) - lock, Noted(s.rxLock));
        WakeOneMore(s, Noted(s.rxLock) - lock);
        if senders != [] {
          WakeSender();
          lock := lock - 1;
        } else {
          break;
        }
      }
      rxLock, phase := UNLOCKED, Running;
      RestIs(s.senders, Noted(s.rxLock));
    }

    // xQueueGenericSendFromISR and xQueueGiveFromISR
    method SendFromISR(overwrite: bool) returns (sent: bool)
      modifies this
      ensures View() == Apply(old(View()), Step.SendFromISR(overwrite))
      ensures sent <==> old(messages) < length || overwrite
      ensures messages == old(messages) + if sent && !(overwrite && itemSize > 0 && old(messages) > 0) then 1 else 0
      ensures receivers == if sent && old(txLock) == UNLOCKED && old(receivers) != []
                           then old(receivers)[1..] else old(receivers)
      ensures txLock == if sent && old(txLock) != UNLOCKED then Plus1(old(txLock)) else old(txLock)
    {
      sent := messages < length || overwrite;
      if sent {
        if !(itemSize > 0 && overwrite && messages > 0) {
          messages := messages + 1;
        }
        if txLock == UNLOCKED {
          if receivers != [] {
            WakeReceiver();
          }
        } else {
          txLock := Plus1(txLock);
        }
      }
    }

    // xQueueGenericReset on a queue in use
    method Reset()
      modifies this
      ensures View() == Apply(old(View()), Step.Reset)
      ensures messages == 0 && txLock == rxLock == UNLOCKED && receivers == old(receivers)
      ensures senders == if old(senders) != [] then old(senders)[1..] else []
    {
      messages := 0;
      rxLock, txLock := UNLOCKED, UNLOCKED;
      if senders != [] {
        WakeSender();
      }
    }

    // xQueueReceiveFromISR
    method ReceiveFromISR() returns (received: bool)
      modifies this
      ensures View() == Apply(old(View()), Step.ReceiveFromISR) && (received <==> old(messages) > 0)
      ensures messages == old(messages) - if received then 1 else 0
      ensures senders == if received && old(rxLock) == UNLOCKED && old(senders) != []
                         then old(senders)[1..] else old(senders)
      ensures rxLock == if received && old(rxLock) != UNLOCKED then Plus1(old(rxLock)) else old(rxLock)
    {
      received := messages > 0;
      if received {
        messages := messages - 1;
        if rxLock == UNLOCKED {
          if senders != [] {
            WakeSender();
          }
        } else {
          rxLock := Plus1(rxLock);
        }
      }
    }
  }
}
