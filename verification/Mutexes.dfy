/** Mutexes with priority inheritance: lib/FreeRTOS/queue.c over lib/FreeRTOS/tasks.c. */
module Mutexes {
  import opened Rings
  import opened Ranks
  import opened Words
  import Clocks

  type Task = Clocks.Task

  /** A mutex is a queue of length 1 without data; `depth` is uxRecursiveCallCount, and
      `woken` the tasks taken off the waiting list that have not yet tried again. */
  datatype Mutex = Mutex(count: nat, holder: Option<Task>, recursive: bool, depth: nat,
                         waiters: seq<Task>, woken: set<Task>)

  /** `raised` are the tasks whose xInheritanceOccurred is set: the holder of the mutex they
      want had, or has, their priority from them. */
  datatype State = State(ranks: map<Task, Rank>, mutexes: map<nat, Mutex>, ready: set<Task>, raised: set<Task>) {

    function Priority(t: Task): nat {
      if t in ranks then ranks[t].priority else 0
    }

    ghost function Base(t: Task): nat {
      if t in ranks then ranks[t].base else 0
    }

    predicate Holds(t: Task, m: nat) {
      m in mutexes && mutexes[m].holder == Some(t)
    }

    /** `t` runs, and deals with `m`. */
    ghost predicate Runs(t: Task, m: nat) {
      && t in ready && t in ranks && m in mutexes
      && forall n <- mutexes :: t in mutexes[n].woken ==> n == m
    }

    ghost function HeldBy(t: Task): set<nat> {
      set m | m in mutexes && mutexes[m].holder == Some(t)
    }

    /** One task and one mutex change. */
    function With(t: Task, r: Rank, m: nat, x: Mutex): State {
      this.(ranks := ranks[t := r], mutexes := mutexes[m := x])
    }
  }

  /** In front of the first waiter of lower priority, as vListInsert does with item values
      that count down from the number of priorities. */
  function InsertAt(s: State, waiters: seq<Task>, p: nat): (i: nat)
    ensures i <= |waiters|
    ensures forall k :: 0 <= k < i ==> p <= s.Priority(waiters[k])
    ensures i < |waiters| ==> s.Priority(waiters[i]) < p
  {
    var values: seq<int> := seq(|waiters|, k requires 0 <= k < |waiters| => 0 - s.Priority(waiters[k]));
    assert forall k {:trigger waiters[k]} :: 0 <= k < |waiters| ==> values[k] == 0 - s.Priority(waiters[k]);
    InFrontOfLarger(values, 0 - p)
  }

  datatype Step =
    | Take(t: Task, m: nat) | Block(t: Task, m: nat) | Give(t: Task, m: nat)
    | TakeRecursive(t: Task, m: nat) | GiveRecursive(t: Task, m: nat)
    | Expire(t: Task, m: nat) | GiveUp(t: Task, m: nat)
    | Sleep(t: Task) | Rouse(t: Task)

  // The successful branch of xQueueSemaphoreTake; xQueueTakeMutexRecursive then counts it
  function Acquired(s: State, t: Task, m: nat): State
    requires t in s.ranks && m in s.mutexes && s.mutexes[m].count > 0
  {
    var x := s.mutexes[m];
    s.With(t, s.ranks[t].Take(), m, x.(count := x.count - 1, holder := Some(t),
                                              depth := if x.recursive then x.depth + 1 else x.depth))
  }

  // prvCopyDataToQueue on a mutex
  function LetGo(s: State, t: Task, m: nat): State
    requires t in s.ranks && s.ranks[t].held > 0 && m in s.mutexes
  {
    var x := s.mutexes[m];
    s.With(t, s.ranks[t].Disinherit(), m, x.(count := x.count + 1, holder := None, depth := 0))
  }

  // xQueueGenericSend on a mutex by its holder: the first waiter is woken
  function Released(s: State, t: Task, m: nat): State
    requires t in s.ranks && s.ranks[t].held > 0 && m in s.mutexes
  {
    if s.mutexes[m].waiters == [] then LetGo(s, t, m) else Woken(LetGo(s, t, m), m)
  }

  // xTaskRemoveFromEventList
  function Woken(s: State, m: nat): State
    requires m in s.mutexes && s.mutexes[m].waiters != []
  {
    var x := s.mutexes[m];
    s.(mutexes := s.mutexes[m := x.(waiters := x.waiters[1..], woken := x.woken + {x.waiters[0]})],
       ready := s.ready + {x.waiters[0]})
  }

  function CameRound(s: State, t: Task, m: nat): State
    requires m in s.mutexes
  {
    s.(mutexes := s.mutexes[m := s.mutexes[m].(woken := s.mutexes[m].woken - {t})])
  }

  // xTaskPriorityInherit and vTaskPlaceOnEventList
  function Blocked(s: State, t: Task, m: nat, h: Task): State
    requires t in s.ranks && m in s.mutexes && h in s.ranks
  {
    var x, p := s.mutexes[m], s.ranks[t].priority;
    var r := s.(ranks := s.ranks[h := s.ranks[h].Inherit(p)]);
    var i := InsertAt(r, x.waiters, r.Priority(t));
    r.(mutexes := r.mutexes[m := x.(waiters := x.waiters[..i] + [t] + x.waiters[i..], woken := x.woken - {t})],
       ready := r.ready - {t})
  }

  // prvGetDisinheritPriorityAfterTimeout
  function Highest(s: State, m: nat): nat
    requires m in s.mutexes
  {
    if s.mutexes[m].waiters == [] then 0 else s.Priority(s.mutexes[m].waiters[0])
  }

  /** A step that can happen in `s`. A ready task that was woken for a mutex first tries that
      mutex again; only the holder gives (the configASSERT of xTaskPriorityDisinherit). */
  ghost predicate Enabled(s: State, step: Step) {
    match step
    case Take(t, m) => s.Runs(t, m) && !s.mutexes[m].recursive
    case Block(t, m) => s.Runs(t, m) && s.mutexes[m].count == 0
    case Give(t, m) => s.Runs(t, m) && !s.mutexes[m].recursive
      && (s.mutexes[m].holder == None || s.Holds(t, m))
    case TakeRecursive(t, m) => s.Runs(t, m) && s.mutexes[m].recursive
    case GiveRecursive(t, m) => s.Runs(t, m) && s.mutexes[m].recursive
    case Expire(t, m) => m in s.mutexes && t in s.mutexes[m].waiters
    case GiveUp(t, m) => s.Runs(t, m)
    case Sleep(t) => t in s.ready && forall m <- s.mutexes :: t !in s.mutexes[m].woken
    case Rouse(t) => t in s.ranks && forall m <- s.mutexes :: t !in s.mutexes[m].waiters
  }

  ghost function Apply(s: State, step: Step): State
    requires Accounts(s) && Enabled(s, step)
  {
    Changed(s, step).(raised := Raised(s, step))
  }

  /** xInheritanceOccurred is the result of xTaskPriorityInherit, and forgotten with the call. */
  ghost function Raised(s: State, step: Step): set<Task>
    requires Accounts(s) && Enabled(s, step)
  {
    match step
    case Take(t, m) => if s.mutexes[m].count > 0 then s.raised - {t} else s.raised
    case TakeRecursive(t, m) =>
      if s.Holds(t, m) || s.mutexes[m].count > 0 then s.raised - {t} else s.raised
    case Block(t, m) =>
      HasHolder(s, m);
      if s.ranks[s.mutexes[m].holder.value].Inherits(s.ranks[t].priority) then s.raised + {t} else s.raised - {t}
    case GiveUp(t, m) => s.raised - {t}
    case _ => s.raised
  }

  /** The step, but for xInheritanceOccurred. */
  ghost function Changed(s: State, step: Step): State
    requires Accounts(s) && Enabled(s, step)
  {
    match step
    case Take(t, m) =>
      var r := CameRound(s, t, m);
      if s.mutexes[m].count > 0 then Acquired(r, t, m) else r
    case Block(t, m) => Blocked(s, t, m, s.mutexes[m].holder.value)
    case Give(t, m) => if s.mutexes[m].count == 0 then Held(s, t, m); Released(s, t, m) else s
    case TakeRecursive(t, m) =>
      var r, x := CameRound(s, t, m), s.mutexes[m];
      if s.Holds(t, m) then Nested(r, m, x.depth + 1)
      else if x.count > 0 then Acquired(r, t, m)
      else r
    case GiveRecursive(t, m) =>
      if !s.Holds(t, m) then s
      else
        Held(s, t, m);
        var d := s.mutexes[m].depth - 1;
        if d == 0 then Released(s, t, m) else Nested(s, m, d)
    case Expire(t, m) =>
      s.(mutexes := s.mutexes[m := s.mutexes[m].(waiters := Without(s.mutexes[m].waiters, t))],
         ready := s.ready + {t})
    case GiveUp(t, m) =>
      match s.mutexes[m].holder {
        case None => s
        case Some(h) =>
          Held(s, h, m);
          if t in s.raised then s.(ranks := s.ranks[h := s.ranks[h].AfterTimeout(Highest(s, m))]) else s
      }
    case Sleep(t) => s.(ready := s.ready - {t})
    case Rouse(t) => s.(ready := s.ready + {t})
  }

  function Nested(s: State, m: nat, d: nat): State
    requires m in s.mutexes
  {
    s.(mutexes := s.mutexes[m := s.mutexes[m].(depth := d)])
  }

  // ---------------------------------------------------------------------- the accounts

  ghost predicate RankOk(r: Rank, n: nat) {
    r.held == n && r.base <= r.priority && (r.held == 0 ==> r.priority == r.base)
  }

  ghost predicate MutexOk(x: Mutex, ranks: map<Task, Rank>) {
    && (x.count == if x.holder.Some? then 0 else 1) && (x.holder.Some? ==> x.holder.value in ranks)
    && (x.recursive && x.holder.Some? <==> x.depth > 0)
  }

  /** uxMutexesHeld counts the mutexes that name the task as holder, a mutex has count 0 just
      when it has a holder, and only holders run above their base priority. */
  ghost predicate Accounts(s: State) {
    && (forall t <- s.ranks :: RankOk(s.ranks[t], |s.HeldBy(t)|))
    && (forall m <- s.mutexes :: MutexOk(s.mutexes[m], s.ranks))
  }

  lemma Held(s: State, t: Task, m: nat)
    requires Accounts(s) && s.Holds(t, m)
    ensures t in s.ranks && s.ranks[t].held > 0 && s.mutexes[m].count == 0
    ensures s.ranks[t].held == 1 ==> s.HeldBy(t) == {m}
  {
    assert MutexOk(s.mutexes[m], s.ranks);
    assert m in s.HeldBy(t);
    assert |s.HeldBy(t) - {m}| == |s.HeldBy(t)| - 1;
    assert RankOk(s.ranks[t], |s.HeldBy(t)|);
  }

  /** What `t` holds once the holder of `m` is that of `x`. */
  lemma HolderChanged(s: State, m: nat, x: Mutex, ranks: map<Task, Rank>, t: Task)
    requires m in s.mutexes
    ensures var r := State(ranks, s.mutexes[m := x], s.ready, s.raised);
            r.HeldBy(t) == if x.holder == Some(t) then s.HeldBy(t) + {m} else s.HeldBy(t) - {m}
  {
  }

  lemma AcquiredAccounts(s: State, t: Task, m: nat)
    requires Accounts(s) && t in s.ranks && m in s.mutexes && s.mutexes[m].count > 0
    ensures Accounts(Acquired(s, t, m))
  {
    var r := Acquired(s, t, m);
    assert MutexOk(s.mutexes[m], s.ranks);
    forall u | u in r.ranks ensures RankOk(r.ranks[u], |r.HeldBy(u)|) {
      HolderChanged(s, m, r.mutexes[m], r.ranks, u);
      assert RankOk(s.ranks[u], |s.HeldBy(u)|);
      assert m !in s.HeldBy(u);
    }
    forall n | n in r.mutexes ensures MutexOk(r.mutexes[n], r.ranks) {
      assert MutexOk(s.mutexes[n], s.ranks);
    }
  }

  /** The waiting list, the woken tasks and the ready tasks do not matter to the accounts. */
  lemma SameAccounts(s: State, r: State, m: nat)
    requires Accounts(s) && m in s.mutexes && m in r.mutexes && r.ranks == s.ranks
    requires r.mutexes == s.mutexes[m := s.mutexes[m].(waiters := r.mutexes[m].waiters, woken := r.mutexes[m].woken,
                                                       depth := r.mutexes[m].depth)]
    requires r.mutexes[m].depth > 0 <==> s.mutexes[m].depth > 0
    ensures Accounts(r)
  {
    forall n | n in r.mutexes ensures MutexOk(r.mutexes[n], r.ranks) {
      assert MutexOk(s.mutexes[n], s.ranks);
    }
    forall u | u in r.ranks ensures RankOk(r.ranks[u], |r.HeldBy(u)|) {
      assert RankOk(s.ranks[u], |s.HeldBy(u)|);
      assert r.HeldBy(u) == s.HeldBy(u);
    }
  }

  lemma LetGoRank(s: State, t: Task, m: nat, u: Task)
    requires Accounts(s) && s.Holds(t, m) && t in s.ranks && s.ranks[t].held > 0 && u in s.ranks
    ensures RankOk(LetGo(s, t, m).ranks[u], |LetGo(s, t, m).HeldBy(u)|)
  {
    var r := LetGo(s, t, m);
    HolderChanged(s, m, r.mutexes[m], r.ranks, u);
    assert RankOk(s.ranks[u], |s.HeldBy(u)|);
    assert m in s.HeldBy(u) <==> u == t;
    if u == t {
      assert |s.HeldBy(t) - {m}| == |s.HeldBy(t)| - 1;
    } else {
      assert s.HeldBy(u) - {m} == s.HeldBy(u);
    }
  }

  lemma ReleasedAccounts(s: State, t: Task, m: nat)
    requires Accounts(s) && s.Holds(t, m)
    ensures t in s.ranks && s.ranks[t].held > 0 && Accounts(Released(s, t, m))
  {
    hide RankOk, State.HeldBy;
    Held(s, t, m);
    var r := LetGo(s, t, m);
    forall u | u in r.ranks ensures RankOk(r.ranks[u], |r.HeldBy(u)|) {
      LetGoRank(s, t, m, u);
    }
    forall n | n in r.mutexes ensures MutexOk(r.mutexes[n], r.ranks) {
      assert MutexOk(s.mutexes[n], s.ranks);
    }
    if s.mutexes[m].waiters != [] {
      SameAccounts(r, Woken(r, m), m);
    }
  }

  /** A holder's priority may change, but not below its base. */
  lemma HolderAccounts(s: State, h: Task, p: nat)
    requires Accounts(s) && h in s.ranks && s.ranks[h].held > 0 && s.ranks[h].base <= p
    ensures Accounts(s.(ranks := s.ranks[h := s.ranks[h].(priority := p)]))
  {
    var r := s.(ranks := s.ranks[h := s.ranks[h].(priority := p)]);
    forall n | n in r.mutexes ensures MutexOk(r.mutexes[n], r.ranks) {
      assert MutexOk(s.mutexes[n], s.ranks);
    }
    forall u | u in r.ranks ensures RankOk(r.ranks[u], |r.HeldBy(u)|) {
      assert RankOk(s.ranks[u], |s.HeldBy(u)|);
      assert r.HeldBy(u) == s.HeldBy(u);
    }
  }

  lemma BlockedAccounts(s: State, t: Task, m: nat, h: Task)
    requires Accounts(s) && t in s.ranks && s.Holds(h, m)
    ensures h in s.ranks && Accounts(Blocked(s, t, m, h))
  {
    Held(s, h, m);
    assert RankOk(s.ranks[h], |s.HeldBy(h)|);
    var r := s.(ranks := s.ranks[h := s.ranks[h].Inherit(s.ranks[t].priority)]);
    HolderAccounts(s, h, r.ranks[h].priority);
    SameAccounts(r, Blocked(s, t, m, h), m);
  }

  lemma ReadyAccounts(s: State, ready: set<Task>)
    requires Accounts(s)
    ensures Accounts(s.(ready := ready))
  {
    var r := s.(ready := ready);
    forall u | u in r.ranks ensures RankOk(r.ranks[u], |r.HeldBy(u)|) {
      assert RankOk(s.ranks[u], |s.HeldBy(u)|);
      assert r.HeldBy(u) == s.HeldBy(u);
    }
  }

  /** Which calls have passed on a priority matters only to what they do after a time-out. */
  lemma RaisedAside(s: State, raised: set<Task>)
    ensures Accounts(s) ==> Accounts(s.(raised := raised))
    ensures Bounded(s) ==> Bounded(s.(raised := raised))
    ensures Placed(s) ==> Placed(s.(raised := raised))
    ensures Above(s) <==> Above(s.(raised := raised))
  {
    var r := s.(raised := raised);
    if Accounts(s) {
      forall u | u in r.ranks ensures RankOk(r.ranks[u], |r.HeldBy(u)|) {
        assert RankOk(s.ranks[u], |s.HeldBy(u)|);
        assert r.HeldBy(u) == s.HeldBy(u);
      }
    }
    if Bounded(s) {
      SameBounded(s, r);
    }
    if Placed(s) {
      forall m | m in r.mutexes ensures PlacedAt(r, m) {
        assert PlacedAt(s, m);
      }
    }
    SameAbove(s, r);
  }

  /** The accounts balance after every step, whatever the tasks do with any number of mutexes. */
  lemma StepAccounts(s: State, step: Step)
    requires Accounts(s) && Enabled(s, step)
    ensures Accounts(Apply(s, step))
  {
    hide Accounts, RankOk, State.HeldBy, Raised;
    RaisedAside(Changed(s, step), Raised(s, step));
    match step
    case Take(t, m) =>
      SameAccounts(s, CameRound(s, t, m), m);
      if s.mutexes[m].count > 0 {
        AcquiredAccounts(CameRound(s, t, m), t, m);
      }
    case TakeRecursive(t, m) =>
      var r := CameRound(s, t, m);
      SameAccounts(s, r, m);
      if s.Holds(t, m) {
        HasHolder(s, m);
        SameAccounts(r, Nested(r, m, r.mutexes[m].depth + 1), m);
      } else if s.mutexes[m].count > 0 {
        AcquiredAccounts(r, t, m);
      }
    case Block(t, m) =>
      HasHolder(s, m);
      BlockedAccounts(s, t, m, s.mutexes[m].holder.value);
    case Give(t, m) =>
      HasHolder(s, m);
      if s.mutexes[m].count == 0 {
        ReleasedAccounts(s, t, m);
      }
    case GiveRecursive(t, m) =>
      if s.Holds(t, m) {
        HasHolder(s, m);
        var d := s.mutexes[m].depth - 1;
        if d == 0 {
          ReleasedAccounts(s, t, m);
        } else {
          SameAccounts(s, Nested(s, m, d), m);
        }
      }
    case Expire(t, m) => SameAccounts(s, Apply(s, step), m);
    case GiveUp(t, m) =>
      if s.mutexes[m].holder.Some? {
        var h := s.mutexes[m].holder.value;
        Held(s, h, m);
        HolderHasBase(s, h);
        HolderAccounts(s, h, s.ranks[h].AfterTimeout(Highest(s, m)).priority);
      }
    case Sleep(t) => ReadyAccounts(s, s.ready - {t});
    case Rouse(t) => ReadyAccounts(s, s.ready + {t});
  }

  lemma HolderHasBase(s: State, h: Task)
    requires Accounts(s) && h in s.ranks
    ensures s.ranks[h].base <= s.ranks[h].priority
    ensures s.ranks[h].held == 0 ==> s.ranks[h].priority == s.ranks[h].base
  {
    assert RankOk(s.ranks[h], |s.HeldBy(h)|);
  }

  // ------------------------------------------------------------------ bounded inversion

  /** A blocked task waits in one place and is not ready; a woken task is. */
  ghost predicate PlacedAt(s: State, m: nat)
    requires m in s.mutexes
  {
    && Distinct(s.mutexes[m].waiters) && s.mutexes[m].woken <= s.ready
    && (forall w <- s.mutexes[m].waiters :: w in s.ranks && w !in s.ready)
    && (forall w <- s.mutexes[m].waiters, n <- s.mutexes :: w in s.mutexes[n].waiters ==> n == m)
  }

  ghost predicate Placed(s: State) {
    forall m <- s.mutexes :: PlacedAt(s, m)
  }

  lemma StepPlaced(s: State, step: Step)
    requires Accounts(s) && Enabled(s, step) && Placed(s)
    ensures Placed(Apply(s, step))
  {
    hide Placed, Accounts, Raised, Changed;
    RaisedAside(Changed(s, step), Raised(s, step));
    match step
    case Block(t, m) => BlockPlaced(s, Changed(s, step), t, m);
    case Expire(t, m) => ExpirePlaced(s, Changed(s, step), t, m);
    case Give(_, _) => GivesPlaced(s, step);
    case GiveRecursive(_, _) => GivesPlaced(s, step);
    case Sleep(_) => SleepPlaced(s, step);
    case Rouse(_) => SleepPlaced(s, step);
    case _ => TryPlaced(s, step);
  }

  lemma TryPlaced(s: State, step: Step)
    requires Accounts(s) && Enabled(s, step) && Placed(s)
    requires step.Take? || step.TakeRecursive? || step.GiveUp?
    ensures Placed(Changed(s, step))
  {
    hide Placed, RankOk, Accounts;
    if step.GiveUp? && s.mutexes[step.m].holder.Some? {
      Held(s, s.mutexes[step.m].holder.value, step.m);
    }
    OneMutexPlaced(s, Changed(s, step), step.m);
  }

  lemma GivesPlaced(s: State, step: Step)
    requires Accounts(s) && Enabled(s, step) && Placed(s)
    requires step.Give? || step.GiveRecursive?
    ensures Placed(Changed(s, step))
  {
    hide Placed, RankOk, Accounts;
    GivePlaced(s, Changed(s, step), step.m);
  }

  lemma SleepPlaced(s: State, step: Step)
    requires Accounts(s) && Enabled(s, step) && Placed(s)
    requires step.Sleep? || step.Rouse?
    ensures Placed(Changed(s, step))
  {
    hide Placed, RankOk, Accounts;
    ReadyPlaced(s, Changed(s, step), step.t);
  }

  lemma ReadyPlaced(s: State, r: State, t: Task)
    requires Placed(s) && r == s.(ready := r.ready)
    requires r.ready == s.ready - {t} || r.ready == s.ready + {t}
    requires forall m <- s.mutexes :: t !in if t in r.ready then SetOf(s.mutexes[m].waiters) else s.mutexes[m].woken
    ensures Placed(r)
  {
    forall n | n in r.mutexes ensures PlacedAt(r, n) {
      assert PlacedAt(s, n);
      assert forall w <- s.mutexes[n].waiters :: w in SetOf(s.mutexes[n].waiters);
    }
  }

  lemma OneMutexPlaced(s: State, r: State, m: nat)
    requires Placed(s) && m in s.mutexes && r.mutexes.Keys == s.mutexes.Keys && r.ready == s.ready
    requires r.ranks.Keys == s.ranks.Keys
    requires forall n <- s.mutexes ::
               r.mutexes[n].waiters == s.mutexes[n].waiters && r.mutexes[n].woken <= s.mutexes[n].woken
    ensures Placed(r)
  {
    forall n | n in r.mutexes ensures PlacedAt(r, n) { assert PlacedAt(s, n); }
  }

  lemma GivePlaced(s: State, r: State, m: nat)
    requires Placed(s) && m in s.mutexes && r.mutexes.Keys == s.mutexes.Keys && r.ranks.Keys == s.ranks.Keys
    requires forall n <- s.mutexes :: n != m ==> r.mutexes[n] == s.mutexes[n]
    requires var x, y := s.mutexes[m], r.mutexes[m];
             if y.waiters == x.waiters then r.ready == s.ready && y.woken == x.woken
             else x.waiters != [] && y.waiters == x.waiters[1..] && y.woken == x.woken + {x.waiters[0]}
                  && r.ready == s.ready + {x.waiters[0]}
    ensures Placed(r)
  {
    var q := s.mutexes[m].waiters;
    assert PlacedAt(s, m);
    DistinctPairs(q);
    DistinctPairs(r.mutexes[m].waiters);
    forall n | n in r.mutexes ensures PlacedAt(r, n) { assert PlacedAt(s, n); }
  }

  lemma BlockPlaced(s: State, r: State, t: Task, m: nat)
    requires Accounts(s) && Enabled(s, Block(t, m)) && Placed(s) && r == Changed(s, Block(t, m))
    ensures Placed(r)
  {
    hide Placed, PlacedAt, RankOk, State.HeldBy;
    assert MutexOk(s.mutexes[m], s.ranks);
    var h := s.mutexes[m].holder.value;
    var i := InsertAt(s.(ranks := r.ranks), s.mutexes[m].waiters, r.Priority(t));
    JoinPlaced(s, r, t, m, i);
  }

  lemma JoinPlaced(s: State, r: State, t: Task, m: nat, i: nat)
    requires Placed(s) && t in s.ready && t in s.ranks && m in s.mutexes && r.ranks.Keys == s.ranks.Keys
    requires r.ready == s.ready - {t} && i <= |s.mutexes[m].waiters|
    requires forall n <- s.mutexes :: t in s.mutexes[n].woken ==> n == m
    requires var x := s.mutexes[m];
             r.mutexes == s.mutexes[m := x.(waiters := x.waiters[..i] + [t] + x.waiters[i..], woken := x.woken - {t})]
    ensures Placed(r)
  {
    assert PlacedAt(s, m);
    InsertDistinct(s.mutexes[m].waiters, i, t);
    InsertMembers(s.mutexes[m].waiters, i, t);
    forall n | n in r.mutexes ensures PlacedAt(r, n) { assert PlacedAt(s, n); }
  }

  lemma ExpirePlaced(s: State, r: State, t: Task, m: nat)
    requires Accounts(s) && Enabled(s, Expire(t, m)) && Placed(s) && r == Changed(s, Expire(t, m))
    ensures Placed(r)
  {
    assert PlacedAt(s, m);
    WithoutMembers(s.mutexes[m].waiters, t);
    forall n | n in r.mutexes ensures PlacedAt(r, n) { assert PlacedAt(s, n); }
  }

  ghost predicate Over(s: State, waiters: seq<Task>, p: nat) {
    forall w <- waiters :: s.Base(w) <= p
  }

  ghost predicate Ordered(s: State, waiters: seq<Task>) {
    forall i, j :: 0 <= i < j < |waiters| ==> s.Base(waiters[j]) <= s.Base(waiters[i])
  }

  ghost predicate HoldNone(s: State, waiters: seq<Task>) {
    forall w <- waiters :: w in s.ranks && s.ranks[w].held == 0
  }

  ghost predicate SomeoneOver(s: State, woken: set<Task>, waiters: seq<Task>) {
    exists r :: r in woken && r in s.ranks && Over(s, waiters, s.Base(r))
  }

  /** The holder of a mutex is at least as high as everyone who waits for it; for a free one,
      a woken task is. */
  ghost predicate BoundedAt(s: State, m: nat)
    requires m in s.mutexes
  {
    var x := s.mutexes[m];
    && HoldNone(s, x.waiters) && Ordered(s, x.waiters)
    && match x.holder
       case Some(h) => Over(s, x.waiters, s.Priority(h))
       case None => x.waiters == [] || SomeoneOver(s, x.woken, x.waiters)
  }

  ghost predicate Bounded(s: State) {
    forall m <- s.mutexes :: BoundedAt(s, m)
  }

  /** Only a task of the highest ready priority takes a mutex, and a task that blocks on a
      mutex holds none. */
  ghost predicate Disciplined(s: State, step: Step) {
    match step
    case Take(t, _) => forall u <- s.ready :: s.Priority(u) <= s.Priority(t)
    case TakeRecursive(t, _) => forall u <- s.ready :: s.Priority(u) <= s.Priority(t)
    case Block(t, _) => t in s.ranks && s.ranks[t].held == 0
    case _ => true
  }

  /** Another mutex is not affected by a change of a task that does not wait for it, and
      whose priority does not fall if it holds it. */
  lemma OthersBounded(s: State, r: State, t: Task, n: nat)
    requires n in s.mutexes && BoundedAt(s, n) && n in r.mutexes && r.mutexes[n] == s.mutexes[n]
    requires t in s.ranks && t in r.ranks && r.ranks == s.ranks[t := r.ranks[t]] && r.Base(t) == s.Base(t)
    requires t in s.mutexes[n].waiters ==> r.ranks[t] == s.ranks[t]
    requires s.Holds(t, n) ==> s.Priority(t) <= r.Priority(t)
    ensures BoundedAt(r, n)
  {
    SameBases(s, r, s.mutexes[n].waiters, s.mutexes[n].woken);
  }

  lemma SameBases(s: State, r: State, q: seq<Task>, woken: set<Task>)
    requires forall u :: r.Base(u) == s.Base(u)
    requires r.ranks.Keys == s.ranks.Keys
    ensures forall p :: Over(s, q, p) <==> Over(r, q, p)
    ensures Ordered(s, q) <==> Ordered(r, q)
    ensures SomeoneOver(s, woken, q) <==> SomeoneOver(r, woken, q)
  {
    forall p ensures Over(s, q, p) <==> Over(r, q, p) {}
    assert forall u :: u in woken && u in s.ranks && Over(s, q, s.Base(u))
                  <==> u in woken && u in r.ranks && Over(r, q, r.Base(u));
  }

  /** Who holds nothing runs at base priority. */
  lemma AtBase(s: State, q: seq<Task>)
    requires Accounts(s) && HoldNone(s, q)
    ensures forall w <- q :: s.Priority(w) == s.Base(w)
  {
    forall w | w in q ensures s.Priority(w) == s.Base(w) {
      HolderHasBase(s, w);
    }
  }

  /** The mutex that `t` has tried to take. */
  lemma TakenBounded(s: State, r: State, t: Task, m: nat)
    requires Accounts(s) && s.Runs(t, m) && PlacedAt(s, m) && BoundedAt(s, m)
    requires forall u <- s.ready :: s.Priority(u) <= s.Priority(t)
    requires s.mutexes[m].count > 0 && r == Acquired(CameRound(s, t, m), t, m)
    ensures BoundedAt(r, m)
  {
    hide Accounts;
    HasHolder(s, m);
    var x := s.mutexes[m];
    if x.waiters != [] {
      var u :| u in x.woken && u in s.ranks && Over(s, x.waiters, s.Base(u));
      HolderHasBase(s, u);
      assert Over(s, x.waiters, s.Priority(t));
    }
    SameBases(s, r, x.waiters, x.woken);
  }

  lemma TakeBounded(s: State, t: Task, m: nat)
    requires Accounts(s) && Placed(s) && Bounded(s) && s.Runs(t, m)
    requires forall u <- s.ready :: s.Priority(u) <= s.Priority(t)
    ensures Bounded(CameRound(s, t, m)) || s.mutexes[m].count > 0
    ensures s.mutexes[m].count > 0 ==> Bounded(Acquired(CameRound(s, t, m), t, m))
  {
    hide Accounts, PlacedAt, BoundedAt;
    assert PlacedAt(s, m) && BoundedAt(s, m);
    HasHolder(s, m);
    var r := if s.mutexes[m].count > 0 then Acquired(CameRound(s, t, m), t, m) else CameRound(s, t, m);
    if s.mutexes[m].count > 0 {
      TakenBounded(s, r, t, m);
    } else {
      TriedBounded(s, t, m);
    }
    forall n | n in r.mutexes ensures BoundedAt(r, n) {
      assert BoundedAt(s, n) && PlacedAt(s, n);
      if n != m {
        NotWaiting(s, t, n);
        OthersBounded(s, r, t, n);
      }
    }
  }

  /** Who tries in vain leaves a mutex with a holder as it is. */
  lemma TriedBounded(s: State, t: Task, m: nat)
    requires m in s.mutexes && BoundedAt(s, m) && s.mutexes[m].holder.Some?
    ensures BoundedAt(CameRound(s, t, m), m)
  {
    SameBases(s, CameRound(s, t, m), s.mutexes[m].waiters, {});
  }

  lemma GiveBounded(s: State, t: Task, m: nat)
    requires Accounts(s) && Placed(s) && Bounded(s) && s.Runs(t, m) && s.Holds(t, m)
    ensures t in s.ranks && s.ranks[t].held > 0 && Bounded(Released(s, t, m))
  {
    hide BoundedAt, PlacedAt;
    Held(s, t, m);
    var r := Released(s, t, m);
    assert PlacedAt(s, m) && BoundedAt(s, m);
    GivenBounded(s, t, m);
    forall n | n in r.mutexes ensures BoundedAt(r, n) {
      if n != m {
        assert PlacedAt(s, n) && BoundedAt(s, n);
        assert s.Holds(t, n) ==> n in s.HeldBy(t);
        NotWaiting(s, t, n);
        OthersBounded(s, r, t, n);
      }
    }
  }

  lemma NotWaiting(s: State, t: Task, n: nat)
    requires n in s.mutexes && PlacedAt(s, n) && t in s.ready
    ensures t !in s.mutexes[n].waiters
  {
  }

  lemma GivenBounded(s: State, t: Task, m: nat)
    requires m in s.mutexes && PlacedAt(s, m) && BoundedAt(s, m) && t in s.ready
    requires t in s.ranks && s.ranks[t].held > 0
    ensures BoundedAt(Released(s, t, m), m)
  {
    var x, r := s.mutexes[m], Released(s, t, m);
    SameBases(s, r, x.waiters, x.woken);
    if x.waiters != [] {
      var w := x.waiters[0];
      assert Over(r, x.waiters[1..], r.Base(w));
      assert SomeoneOver(r, r.mutexes[m].woken, x.waiters[1..]);
    }
  }

  /** New waiter `t`, and a holder that has inherited its priority. */
  lemma BlockBounded(s: State, t: Task, m: nat, h: Task)
    requires Accounts(s) && Placed(s) && Bounded(s) && s.Runs(t, m) && s.Holds(h, m)
    requires s.ranks[t].held == 0 && h in s.ranks
    ensures Bounded(Blocked(s, t, m, h))
  {
    hide PlacedAt;
    Held(s, h, m);
    var r := Blocked(s, t, m, h);
    assert PlacedAt(s, m);
    JoinedBounded(s, t, m, h);
    forall n | n in r.mutexes ensures BoundedAt(r, n) {
      assert PlacedAt(s, n) && BoundedAt(s, n);
      if n != m {
        OthersBounded(s, r, h, n);
      }
    }
  }

  lemma JoinedBounded(s: State, t: Task, m: nat, h: Task)
    requires Accounts(s) && s.Runs(t, m) && s.Holds(h, m) && BoundedAt(s, m)
    requires s.ranks[t].held == 0 && h in s.ranks && s.ranks[h].held > 0
    ensures BoundedAt(Blocked(s, t, m, h), m)
  {
    hide Accounts, Ordered, Over;
    var q, r := s.mutexes[m].waiters, Blocked(s, t, m, h);
    var s1 := s.(ranks := r.ranks);
    var i := InsertAt(s1, q, s.Priority(t));
    var q' := q[..i] + [t] + q[i..];
    assert r.mutexes[m].waiters == q';
    HolderHasBase(s, t);
    AtBase(s, q);
    InsertMembers(q, i, t);
    forall k | 0 <= k < |q| ensures s1.Priority(q[k]) == s.Base(q[k]) {
      assert q[k] in q;
    }
    OrderedInsert(s, q, t, i);
    SameBases(s, r, q', {});
    OverJoined(s, q, q', t, s.Priority(h), r.Priority(h));
  }

  lemma OrderedInsert(s: State, q: seq<Task>, t: Task, i: nat)
    requires Ordered(s, q) && i <= |q|
    requires forall k :: 0 <= k < i ==> s.Base(t) <= s.Base(q[k])
    requires i < |q| ==> s.Base(q[i]) < s.Base(t)
    ensures Ordered(s, q[..i] + [t] + q[i..])
  {
    var q' := q[..i] + [t] + q[i..];
    forall a, b | 0 <= a < b < |q'| ensures s.Base(q'[b]) <= s.Base(q'[a]) {
      assert q'[a] == if a < i then q[a] else if a == i then t else q[a - 1];
      assert q'[b] == if b < i then q[b] else if b == i then t else q[b - 1];
      if a == i {
        assert s.Base(q[b - 1]) <= s.Base(q[i]);
      }
    }
  }

  lemma OverJoined(s: State, q: seq<Task>, q': seq<Task>, t: Task, p: nat, p': nat)
    requires Over(s, q, p) && p <= p' && s.Base(t) <= p' && forall w <- q' :: w in q || w == t
    ensures Over(s, q', p')
  {
  }

  lemma ExpireBounded(s: State, t: Task, m: nat)
    requires Accounts(s) && Placed(s) && Bounded(s) && m in s.mutexes && t in s.mutexes[m].waiters
    ensures Bounded(Apply(s, Expire(t, m)))
  {
    hide PlacedAt, Accounts, Without, BoundedAt;
    var r := Apply(s, Expire(t, m));
    assert PlacedAt(s, m) && BoundedAt(s, m);
    LeftBounded(s, r, t, m);
    forall n | n in r.mutexes ensures BoundedAt(r, n) {
      assert BoundedAt(s, n);
      if n != m {
        WaiterIsTask(s, t, m);
        OthersBounded(s, r, t, n);
      }
    }
  }

  lemma WaiterIsTask(s: State, t: Task, m: nat)
    requires m in s.mutexes && PlacedAt(s, m) && t in s.mutexes[m].waiters
    ensures t in s.ranks
  {
  }

  lemma LeftBounded(s: State, r: State, t: Task, m: nat)
    requires m in s.mutexes && PlacedAt(s, m) && BoundedAt(s, m) && t in s.mutexes[m].waiters
    requires m in r.mutexes && r.ranks == s.ranks
    requires r.mutexes[m] == s.mutexes[m].(waiters := Without(s.mutexes[m].waiters, t))
    ensures BoundedAt(r, m)
  {
    var q, w := s.mutexes[m].waiters, Without(s.mutexes[m].waiters, t);
    WithoutMembers(q, t);
    OrderedWithout(s, q, t);
    SameBases(s, r, w, s.mutexes[m].woken);
    if s.mutexes[m].holder.None? {
      var u :| u in s.mutexes[m].woken && u in s.ranks && Over(s, q, s.Base(u));
      assert Over(s, w, s.Base(u));
    }
  }

  lemma OrderedWithout(s: State, q: seq<Task>, t: Task)
    requires Ordered(s, q) && t in q
    ensures Ordered(s, Without(q, t))
  {
    var w := Without(q, t);
    forall i, j | 0 <= i < j < |w| ensures s.Base(w[j]) <= s.Base(w[i]) {
      WithoutAt(q, t, i);
      WithoutAt(q, t, j);
    }
  }

  lemma GiveUpBounded(s: State, h: Task, m: nat)
    requires Accounts(s) && Placed(s) && Bounded(s) && s.Holds(h, m)
    ensures h in s.ranks && s.ranks[h].held > 0
    ensures Bounded(s.(ranks := s.ranks[h := s.ranks[h].AfterTimeout(Highest(s, m))]))
  {
    hide PlacedAt;
    Held(s, h, m);
    var q, r := s.mutexes[m].waiters, s.(ranks := s.ranks[h := s.ranks[h].AfterTimeout(Highest(s, m))]);
    assert PlacedAt(s, m) && BoundedAt(s, m);
    AtBase(s, q);
    assert s.ranks[h].held == 1 ==> Over(s, q, r.Priority(h)) by {
      assert q != [] ==> Highest(s, m) == s.Base(q[0]);
    }
    SameBases(s, r, q, s.mutexes[m].woken);
    forall n | n in r.mutexes ensures BoundedAt(r, n) {
      assert PlacedAt(s, n) && BoundedAt(s, n);
      if n != m {
        assert s.Holds(h, n) ==> n in s.HeldBy(h);
        OthersBounded(s, r, h, n);
      }
    }
  }

  /** The queues, the holders and the priorities are all that matters. */
  lemma SameBounded(s: State, r: State)
    requires Bounded(s) && r.ranks == s.ranks && r.mutexes.Keys == s.mutexes.Keys
    requires forall m <- s.mutexes :: r.mutexes[m].(depth := 0) == s.mutexes[m].(depth := 0)
    ensures Bounded(r)
  {
    forall n | n in r.mutexes ensures BoundedAt(r, n) {
      assert BoundedAt(s, n);
      SameBases(s, r, s.mutexes[n].waiters, s.mutexes[n].woken);
    }
  }

  lemma StepBounded(s: State, step: Step)
    requires Accounts(s) && Placed(s) && Bounded(s) && Enabled(s, step) && Disciplined(s, step)
    ensures Bounded(Apply(s, step))
  {
    hide Accounts, Placed, Bounded, BoundedAt, Raised;
    RaisedAside(Changed(s, step), Raised(s, step));
    match step
    case Take(t, m) => TakeBounded(s, t, m);
    case TakeRecursive(t, m) =>
      TakeBounded(s, t, m);
      if s.Holds(t, m) {
        Held(s, t, m);
        SameBounded(CameRound(s, t, m), Apply(s, step));
      }
    case Block(t, m) =>
      HasHolder(s, m);
      BlockBounded(s, t, m, s.mutexes[m].holder.value);
    case Give(t, m) =>
      HasHolder(s, m);
      if s.mutexes[m].count == 0 {
        GiveBounded(s, t, m);
      }
    case GiveRecursive(t, m) =>
      if s.Holds(t, m) {
        Held(s, t, m);
        HasHolder(s, m);
        if s.mutexes[m].depth == 1 {
          GiveBounded(s, t, m);
        } else {
          SameBounded(s, Apply(s, step));
        }
      }
    case Expire(t, m) => ExpireBounded(s, t, m);
    case GiveUp(t, m) =>
      if s.mutexes[m].holder.Some? {
        GiveUpBounded(s, s.mutexes[m].holder.value, m);
      }
    case Sleep(t) => SameBounded(s, Apply(s, step));
    case Rouse(t) => SameBounded(s, Apply(s, step));
  }

  lemma HasHolder(s: State, m: nat)
    requires Accounts(s) && m in s.mutexes
    ensures MutexOk(s.mutexes[m], s.ranks)
  {
  }

  // ------------------------------------------------------------------------ whole runs

  ghost predicate Possible(s: State, steps: seq<Step>)
    requires Accounts(s)
    decreases |steps|
  {
    steps == [] ||
    (Enabled(s, steps[0]) &&
     (StepAccounts(s, steps[0]); Possible(Apply(s, steps[0]), steps[1..])))
  }

  ghost function Run(s: State, steps: seq<Step>): (r: State)
    requires Accounts(s) && Possible(s, steps)
    ensures Accounts(r)
    decreases |steps|
  {
    if steps == [] then s else StepAccounts(s, steps[0]); Run(Apply(s, steps[0]), steps[1..])
  }

  ghost predicate AllDisciplined(s: State, steps: seq<Step>)
    requires Accounts(s) && Possible(s, steps)
    decreases |steps|
  {
    steps == [] ||
    (Disciplined(s, steps[0]) &&
     (StepAccounts(s, steps[0]); AllDisciplined(Apply(s, steps[0]), steps[1..])))
  }

  /** Every mutex as prvInitialiseMutex leaves it, and nobody waiting. */
  ghost predicate Fresh(s: State) {
    && (forall t <- s.ranks :: s.ranks[t].held == 0 && s.ranks[t].priority == s.ranks[t].base)
    && (forall m <- s.mutexes ::
         var x := s.mutexes[m];
         x.count == 1 && x.holder.None? && x.depth == 0 && x.waiters == [] && x.woken == {})
  }

  lemma FreshBalances(s: State)
    requires Fresh(s)
    ensures Accounts(s) && Placed(s) && Bounded(s)
  {
    forall t | t in s.ranks ensures RankOk(s.ranks[t], |s.HeldBy(t)|) {
      assert s.HeldBy(t) == {};
    }
  }

  ghost predicate Initial(s: State)
    ensures Initial(s) ==> Accounts(s)
  {
    Fresh(s) && (FreshBalances(s); true)
  }

  /** In every run, with any number of mutexes and any nesting: uxMutexesHeld is the number
      of mutexes held, a mutex has count 0 just when it has a holder, no priority is below its
      base, and a task that holds no mutex runs at its base priority. */
  lemma MutexAccounting(s: State, steps: seq<Step>, t: Task, m: nat)
    requires Initial(s) && Possible(s, steps) && t in Run(s, steps).ranks && m in Run(s, steps).mutexes
    ensures var r := Run(s, steps);
            && r.ranks[t].held == |r.HeldBy(t)| && r.ranks[t].base <= r.ranks[t].priority
            && (r.ranks[t].held == 0 ==> r.ranks[t].priority == r.ranks[t].base)
            && (r.mutexes[m].count == 0 <==> r.mutexes[m].holder.Some?) && r.mutexes[m].count <= 1
  {
    var r := Run(s, steps);
    assert RankOk(r.ranks[t], |r.HeldBy(t)|) && MutexOk(r.mutexes[m], r.ranks);
  }

  /** No step changes a base priority, or who the tasks are. */
  lemma StepBase(s: State, step: Step)
    requires Accounts(s) && Enabled(s, step)
    ensures Apply(s, step).ranks.Keys == s.ranks.Keys
    ensures forall t :: Apply(s, step).Base(t) == s.Base(t)
  {
    hide Raised, Accounts, InsertAt, Highest;
    match step
    case GiveRecursive(t, m) => if s.Holds(t, m) { Held(s, t, m); }
    case Give(t, m) =>
      HasHolder(s, m);
      if s.mutexes[m].count == 0 { Held(s, t, m); }
    case GiveUp(_, m) => if s.mutexes[m].holder.Some? { Held(s, s.mutexes[m].holder.value, m); }
    case Block(_, m) => HasHolder(s, m);
    case _ =>
  }

  lemma {:induction false} RunBase(s: State, steps: seq<Step>, t: Task)
    requires Accounts(s) && Possible(s, steps)
    ensures Run(s, steps).ranks.Keys == s.ranks.Keys && Run(s, steps).Base(t) == s.Base(t)
    decreases |steps|
  {
    if steps != [] {
      StepAccounts(s, steps[0]);
      StepBase(s, steps[0]);
      RunBase(Apply(s, steps[0]), steps[1..], t);
    }
  }

  /** Inheritance leaves nothing behind: in every run, a task that holds no mutex is back at the
      priority that it started with. */
  lemma BackToBase(s: State, steps: seq<Step>, t: Task)
    requires Initial(s) && Possible(s, steps) && t in Run(s, steps).ranks
    requires Run(s, steps).HeldBy(t) == {}
    ensures t in s.ranks && Run(s, steps).ranks[t] == s.ranks[t]
  {
    RunBase(s, steps, t);
    RankInRun(s, steps, t);
  }

  lemma RankInRun(s: State, steps: seq<Step>, t: Task)
    requires Initial(s) && Possible(s, steps) && t in Run(s, steps).ranks
    ensures var r := Run(s, steps);
            && r.ranks[t].held == |r.HeldBy(t)|
            && (r.ranks[t].held == 0 ==> r.ranks[t].priority == r.ranks[t].base)
  {
    var r := Run(s, steps);
    assert RankOk(r.ranks[t], |r.HeldBy(t)|);
  }

  lemma {:induction false} RunBounded(s: State, steps: seq<Step>)
    requires Accounts(s) && Placed(s) && Bounded(s) && Possible(s, steps) && AllDisciplined(s, steps)
    ensures Placed(Run(s, steps)) && Bounded(Run(s, steps))
    decreases |steps|
  {
    if steps != [] {
      StepAccounts(s, steps[0]);
      StepPlaced(s, steps[0]);
      StepBounded(s, steps[0]);
      RunBounded(Apply(s, steps[0]), steps[1..]);
    }
  }

  /** Priority inversion is bounded: the holder of a mutex runs at least at the priority of
      everyone who waits for it, through giving, barging and time-outs; and whenever a free
      mutex has waiters, a task at least as high as all of them is ready to take it. */
  lemma BoundedInversion(s: State, steps: seq<Step>, m: nat, w: Task)
    requires Initial(s) && Possible(s, steps) && AllDisciplined(s, steps)
    requires m in Run(s, steps).mutexes && w in Run(s, steps).mutexes[m].waiters
    ensures var r := Run(s, steps);
            match r.mutexes[m].holder
            case Some(h) => r.Priority(w) <= r.Priority(h)
            case None => exists u :: u in r.mutexes[m].woken && u in r.ready && r.Priority(w) <= r.Priority(u)
  {
    var r := Run(s, steps);
    FreshBalances(s);
    RunBounded(s, steps);
    var x := r.mutexes[m];
    assert BoundedAt(r, m) && PlacedAt(r, m);
    AtBase(r, x.waiters);
    if x.holder.None? {
      var u :| u in x.woken && u in r.ranks && Over(r, x.waiters, r.Base(u));
      HolderHasBase(r, u);
    }
  }

  // ------------------------------------------------- the bound without the discipline

  /** Every holder runs at least at the priority of each of its waiters. */
  ghost predicate Above(s: State) {
    forall m <- s.mutexes :: AboveAt(s, m)
  }

  ghost predicate AboveAt(s: State, m: nat)
    requires m in s.mutexes
  {
    s.mutexes[m].holder.Some? ==> Under(s, s.mutexes[m].waiters, s.Priority(s.mutexes[m].holder.value))
  }

  ghost predicate Under(s: State, waiters: seq<Task>, p: nat) {
    forall w <- waiters :: s.Priority(w) <= p
  }

  ghost predicate UnderBut(s: State, waiters: seq<Task>, h: Task, p: nat) {
    forall w <- waiters :: w != h ==> s.Priority(w) <= p
  }

  /** Whoever holds a mutex that `h` waits for runs at priority `p` or above. */
  ghost predicate PassedOn(s: State, h: Task, p: nat) {
    forall n <- s.mutexes :: h in s.mutexes[n].waiters ==> HolderReaches(s.mutexes[n].holder, s, h, p)
  }

  ghost predicate HolderReaches(holder: Option<Task>, s: State, h: Task, p: nat) {
    holder.Some? && holder.value != h ==> p <= s.Priority(holder.value)
  }

  /** What a step must find for the bound to survive it: a task that takes a mutex is as high
      as those still waiting for it; nobody whom the holder itself waits for is below a task
      that blocks; and after a time-out nobody who waits is above both the first waiter and the
      base priority of the holder. */
  ghost predicate Fits(s: State, step: Step)
    requires Accounts(s) && Enabled(s, step)
  {
    match step
    case Take(t, m) => s.mutexes[m].count > 0 ==> Under(s, s.mutexes[m].waiters, s.Priority(t))
    case TakeRecursive(t, m) => s.mutexes[m].count > 0 ==> Under(s, s.mutexes[m].waiters, s.Priority(t))
    case Block(t, m) => PassedOn(s, s.mutexes[m].holder.value, s.Priority(t))
    case GiveUp(t, m) =>
      var x := s.mutexes[m];
      x.holder.Some? && t in s.raised && s.ranks[x.holder.value].held == 1 ==>
        UnderBut(s, x.waiters, x.holder.value, Higher(s.Base(x.holder.value), Highest(s, m)))
    case _ => true
  }

  function Higher(a: nat, b: nat): nat {
    if a < b then b else a
  }

  lemma BlockAbove(s: State, t: Task, m: nat, h: Task)
    requires Accounts(s) && Placed(s) && Above(s) && s.Runs(t, m) && s.Holds(h, m) && h in s.ranks
    ensures Above(Blocked(s, t, m, h)) <==> PassedOn(s, h, s.Priority(t))
  {
    hide Accounts, Distinct;
    var q, r := s.mutexes[m].waiters, Blocked(s, t, m, h);
    InsertMembers(q, InsertAt(s.(ranks := r.ranks), q, r.Priority(t)), t);
    forall n | n in s.mutexes
      ensures AboveAt(r, n) <==>
                (h in s.mutexes[n].waiters ==> HolderReaches(s.mutexes[n].holder, s, h, s.Priority(t)))
    {
      assert AboveAt(s, n) && PlacedAt(s, n);
    }
  }

  lemma SameAbove(s: State, r: State)
    requires r.ranks == s.ranks && r.mutexes.Keys == s.mutexes.Keys
    requires forall m <- s.mutexes ::
               r.mutexes[m].holder == s.mutexes[m].holder && r.mutexes[m].waiters == s.mutexes[m].waiters
    ensures Above(r) <==> Above(s)
  {
    forall m | m in s.mutexes ensures AboveAt(r, m) <==> AboveAt(s, m) {}
  }

  lemma TakeAbove(s: State, t: Task, m: nat)
    requires Above(s) && t in s.ranks && m in s.mutexes && s.mutexes[m].count > 0
    ensures Above(Acquired(CameRound(s, t, m), t, m)) <==> Under(s, s.mutexes[m].waiters, s.Priority(t))
  {
    var r := Acquired(CameRound(s, t, m), t, m);
    forall n | n in s.mutexes
      ensures AboveAt(r, n) <==> (n == m ==> Under(s, s.mutexes[m].waiters, s.Priority(t)))
    {
      assert AboveAt(s, n);
    }
  }

  lemma GiveAbove(s: State, t: Task, m: nat)
    requires Accounts(s) && Placed(s) && Above(s) && s.Runs(t, m) && s.Holds(t, m)
    ensures t in s.ranks && s.ranks[t].held > 0 && Above(Released(s, t, m))
  {
    hide Accounts, Distinct;
    Held(s, t, m);
    HolderHasBase(s, t);
    var r := Released(s, t, m);
    forall n | n in r.mutexes ensures AboveAt(r, n) {
      assert AboveAt(s, n) && PlacedAt(s, n);
      assert s.Holds(t, n) ==> n in s.HeldBy(t);
    }
  }

  lemma ExpireAbove(s: State, r: State, t: Task, m: nat)
    requires Above(s) && m in s.mutexes && Distinct(s.mutexes[m].waiters) && r.ranks == s.ranks
    requires r.mutexes == s.mutexes[m := s.mutexes[m].(waiters := Without(s.mutexes[m].waiters, t))]
    ensures Above(r)
  {
    WithoutMembers(s.mutexes[m].waiters, t);
    forall n | n in r.mutexes ensures AboveAt(r, n) {
      assert AboveAt(s, n);
    }
  }

  lemma WaitersDiffer(s: State, m: nat)
    requires Placed(s) && m in s.mutexes
    ensures Distinct(s.mutexes[m].waiters)
  {
    assert PlacedAt(s, m);
  }

  lemma GiveUpAbove(s: State, h: Task, m: nat)
    requires Above(s) && s.Holds(h, m) && h in s.ranks && s.ranks[h].held > 0
    requires s.ranks[h].base <= s.ranks[h].priority && (s.ranks[h].held == 1 ==> s.HeldBy(h) == {m})
    ensures var r := s.(ranks := s.ranks[h := s.ranks[h].AfterTimeout(Highest(s, m))]);
            Above(r) <==> (s.ranks[h].held == 1 ==>
                             UnderBut(s, s.mutexes[m].waiters, h, Higher(s.Base(h), Highest(s, m))))
  {
    var r := s.(ranks := s.ranks[h := s.ranks[h].AfterTimeout(Highest(s, m))]);
    assert AboveAt(s, m);
    if s.ranks[h].held == 1 {
      var p := Higher(s.Base(h), Highest(s, m));
      assert r.Priority(h) == p <= s.Priority(h);
      forall n | n in s.mutexes
        ensures AboveAt(r, n) <==> (n == m ==> UnderBut(s, s.mutexes[m].waiters, h, p))
      {
        assert AboveAt(s, n);
        assert s.Holds(h, n) ==> n in s.HeldBy(h);
      }
    } else {
      assert r.ranks == s.ranks;
    }
  }

  /** Each step keeps the bound if and only if it fits. */
  lemma StepKeepsTheBound(s: State, step: Step)
    requires Accounts(s) && Placed(s) && Above(s) && Enabled(s, step)
    ensures Above(Apply(s, step)) <==> Fits(s, step)
  {
    hide Accounts, Placed, Above, Under, State.HeldBy, Raised;
    RaisedAside(Changed(s, step), Raised(s, step));
    match step
    case Take(t, m) =>
      SameAbove(s, CameRound(s, t, m));
      if s.mutexes[m].count > 0 {
        TakeAbove(s, t, m);
      }
    case TakeRecursive(t, m) =>
      SameAbove(s, CameRound(s, t, m));
      if s.Holds(t, m) {
        Held(s, t, m);
        SameAbove(s, Apply(s, step));
      } else if s.mutexes[m].count > 0 {
        TakeAbove(s, t, m);
      }
    case Block(t, m) =>
      HasHolder(s, m);
      BlockAbove(s, t, m, s.mutexes[m].holder.value);
    case Give(t, m) =>
      HasHolder(s, m);
      if s.mutexes[m].count == 0 {
        GiveAbove(s, t, m);
      }
    case GiveRecursive(t, m) =>
      if s.Holds(t, m) {
        Held(s, t, m);
        HasHolder(s, m);
        if s.mutexes[m].depth == 1 {
          GiveAbove(s, t, m);
        } else {
          SameAbove(s, Apply(s, step));
        }
      }
    case Expire(t, m) =>
      WaitersDiffer(s, m);
      ExpireAbove(s, Changed(s, step), t, m);
    case GiveUp(t, m) =>
      if s.mutexes[m].holder.Some? {
        Held(s, s.mutexes[m].holder.value, m);
        HolderHasBase(s, s.mutexes[m].holder.value);
        GiveUpAbove(s, s.mutexes[m].holder.value, m);
      }
    case Sleep(t) => SameAbove(s, Apply(s, step));
    case Rouse(t) => SameAbove(s, Apply(s, step));
  }

  lemma PassedOnIs(s: State, h: Task, p: nat)
    ensures PassedOn(s, h, p) <==>
            forall n, g :: n in s.mutexes && h in s.mutexes[n].waiters && s.Holds(g, n) && g != h ==> p <= s.Priority(g)
  {
    if PassedOn(s, h, p) {
      forall n, g | n in s.mutexes && h in s.mutexes[n].waiters && s.Holds(g, n) && g != h
        ensures p <= s.Priority(g)
      {
        assert HolderReaches(s.mutexes[n].holder, s, h, p);
      }
    } else {
      var n :| n in s.mutexes && h in s.mutexes[n].waiters && !HolderReaches(s.mutexes[n].holder, s, h, p);
      assert s.Holds(s.mutexes[n].holder.value, n);
    }
  }

  /** Blocking on a mutex keeps every holder at least as high as its waiters if and only if
      the holder of that mutex does not wait itself for somebody below the blocking task:
      inheritance goes one mutex far. */
  lemma BlockKeepsTheBound(s: State, t: Task, m: nat)
    requires Accounts(s) && Placed(s) && Above(s) && Enabled(s, Block(t, m))
    ensures s.mutexes[m].holder.Some?
    ensures var h := s.mutexes[m].holder.value;
            Above(Apply(s, Block(t, m))) <==>
            forall n, g :: n in s.mutexes && h in s.mutexes[n].waiters && s.Holds(g, n) && g != h ==>
              s.Priority(t) <= s.Priority(g)
  {
    hide Accounts, Placed, Above, PassedOn, Apply;
    HasHolder(s, m);
    StepKeepsTheBound(s, Block(t, m));
    PassedOnIs(s, s.mutexes[m].holder.value, s.Priority(t));
  }

  ghost predicate AllFit(s: State, steps: seq<Step>)
    requires Accounts(s) && Possible(s, steps)
    decreases |steps|
  {
    steps == [] ||
    (Fits(s, steps[0]) && (StepAccounts(s, steps[0]); AllFit(Apply(s, steps[0]), steps[1..])))
  }

  /** The bound holds now and after every step. */
  ghost predicate AlwaysAbove(s: State, steps: seq<Step>)
    requires Accounts(s) && Possible(s, steps)
    decreases |steps|
  {
    Above(s) &&
    (steps == [] || (StepAccounts(s, steps[0]); AlwaysAbove(Apply(s, steps[0]), steps[1..])))
  }

  lemma {:induction false} AboveWhileFitting(s: State, steps: seq<Step>)
    requires Accounts(s) && Placed(s) && Above(s) && Possible(s, steps)
    ensures AlwaysAbove(s, steps) <==> AllFit(s, steps)
    decreases |steps|
  {
    if steps != [] {
      StepAccounts(s, steps[0]);
      StepPlaced(s, steps[0]);
      StepKeepsTheBound(s, steps[0]);
      if Fits(s, steps[0]) {
        AboveWhileFitting(Apply(s, steps[0]), steps[1..]);
      } else if steps[1..] != [] {
        assert !Above(Apply(s, steps[0]));
      }
    }
  }

  /** With any nesting of mutexes: every holder is at least as high as its waiters all through
      a run if and only if every step of the run fits. */
  lemma BoundedExactlyWhenFitting(s: State, steps: seq<Step>)
    requires Initial(s) && Possible(s, steps)
    ensures AlwaysAbove(s, steps) <==> AllFit(s, steps)
  {
    FreshBalances(s);
    AboveWhileFitting(s, steps);
  }

  /** Task 1 takes mutex 10, task 2 takes mutex 20 and then blocks on 10, and task 3 on 20. */
  const NESTING: seq<Step> := [Take(1, 10), Take(2, 20), Block(2, 10), Block(3, 20)]

  function Nest(i: nat): State {
    var free := Mutex(1, None, false, 0, [], {});
    var held := free.(count := 0);
    State(
      map[1 := Rank(if i < 3 then 1 else 2, 1, if i < 1 then 0 else 1),
          2 := Rank(if i < 4 then 2 else 3, 2, if i < 2 then 0 else 1),
          3 := Rank(3, 3, 0)],
      map[10 := if i < 1 then free else held.(holder := Some(1), waiters := if i < 3 then [] else [2]),
          20 := if i < 2 then free else held.(holder := Some(2), waiters := if i < 4 then [] else [3])],
      if i < 3 then {1, 2, 3} else if i < 4 then {1, 3} else {1},
      if i < 3 then {} else if i < 4 then {2} else {2, 3})
  }

  lemma NestStep(i: nat)
    requires i < 4 && Accounts(Nest(i))
    ensures Enabled(Nest(i), NESTING[i]) && Apply(Nest(i), NESTING[i]) == Nest(i + 1)
  {
    hide Accounts;
    HasHolder(Nest(i), 10);
    HasHolder(Nest(i), 20);
    var none: set<Task> := {};
    assert none - {1} == none && none - {2} == none && none - {3} == none;
    var s, r := Nest(i), Apply(Nest(i), NESTING[i]);
    if i >= 2 {
      var m := NESTING[i].m;
      assert s.mutexes[m].waiters == [];
      assert r.mutexes[m].waiters == [NESTING[i].t];
    }
    assert r.mutexes[10] == Nest(i + 1).mutexes[10] && r.mutexes[20] == Nest(i + 1).mutexes[20];
    assert r.mutexes == Nest(i + 1).mutexes;
    assert r.ranks == Nest(i + 1).ranks;
    assert r.ready == Nest(i + 1).ready;
    assert r.raised == Nest(i + 1).raised;
  }

  lemma NestRun(i: nat)
    requires i <= 4 && Accounts(Nest(i))
    ensures Possible(Nest(i), NESTING[i..]) && Run(Nest(i), NESTING[i..]) == Nest(4)
    decreases 4 - i
  {
    hide Accounts, Nest, Enabled, Apply;
    if i < 4 {
      NestStep(i);
      StepAccounts(Nest(i), NESTING[i]);
      NestRun(i + 1);
      assert NESTING[i..][1..] == NESTING[i + 1..];
    }
  }

  lemma NestAbove(i: nat)
    requires i < 4 && Accounts(Nest(i))
    ensures Above(Nest(i)) && (Enabled(Nest(i), NESTING[i]) ==> (Fits(Nest(i), NESTING[i]) <==> i < 3))
  {
    hide Accounts;
    var s := Nest(i);
    assert forall m <- s.mutexes :: AboveAt(s, m);
    if i >= 2 {
      HasHolder(s, NESTING[i].m);
    }
    if i == 3 {
      assert 2 in s.mutexes[10].waiters && !HolderReaches(s.mutexes[10].holder, s, 2, s.Priority(3));
    }
  }

  /** The run fits up to its last step: task 3 blocks on the mutex of task 2, which itself
      waits for task 1, and task 1 is then below the task that waits for it. */
  lemma NestingBreaksTheBound()
    ensures Initial(Nest(0)) && Possible(Nest(0), NESTING)
    ensures forall i :: 0 <= i < 4 ==>
              Accounts(Nest(i)) && Placed(Nest(i)) && Above(Nest(i)) && Enabled(Nest(i), NESTING[i])
              && (Fits(Nest(i), NESTING[i]) <==> i < 3) && Apply(Nest(i), NESTING[i]) == Nest(i + 1)
    ensures var r := Run(Nest(0), NESTING);
            && 2 in r.mutexes[10].waiters && r.mutexes[10].holder == Some(1) && r.Priority(1) < r.Priority(2)
            && !Above(r)
  {
    hide Accounts, Placed, Above, Fits, Enabled, Apply;
    assert Initial(Nest(0));
    FreshBalances(Nest(0));
    NestRun(0);
    assert NESTING[0..] == NESTING;
    for i := 0 to 4
      invariant Accounts(Nest(i)) && Placed(Nest(i))
      invariant forall k :: 0 <= k < i ==>
              Accounts(Nest(k)) && Placed(Nest(k)) && Above(Nest(k)) && Enabled(Nest(k), NESTING[k])
              && (Fits(Nest(k), NESTING[k]) <==> k < 3) && Apply(Nest(k), NESTING[k]) == Nest(k + 1)
    {
      NestStep(i);
      NestAbove(i);
      StepAccounts(Nest(i), NESTING[i]);
      StepPlaced(Nest(i), NESTING[i]);
    }
    StepKeepsTheBound(Nest(3), NESTING[3]);
  }

  // ------------------------------------------------------------------ recursive mutexes

  /** What a step adds to the number of takes of `m` by `t` that are not yet given back. */
  function Delta(step: Step, t: Task, m: nat): int {
    if step == TakeRecursive(t, m) then 1 else if step == GiveRecursive(t, m) then -1 else 0
  }

  function Level(d: int, steps: seq<Step>, t: Task, m: nat): int
    decreases |steps|
  {
    if steps == [] then d else Level(d + Delta(steps[0], t, m), steps[1..], t, m)
  }

  ghost predicate StaysAboveZero(d: int, steps: seq<Step>, t: Task, m: nat)
    decreases |steps|
  {
    d > 0 && (steps == [] || StaysAboveZero(d + Delta(steps[0], t, m), steps[1..], t, m))
  }

  lemma StepDepth(s: State, step: Step, t: Task, m: nat)
    requires Accounts(s) && Enabled(s, step) && s.Holds(t, m) && s.mutexes[m].recursive
    requires s.mutexes[m].depth + Delta(step, t, m) > 0
    ensures Apply(s, step).Holds(t, m) && Apply(s, step).mutexes[m].recursive
    ensures Apply(s, step).mutexes[m].depth == s.mutexes[m].depth + Delta(step, t, m)
  {
    hide Accounts;
    Held(s, t, m);
    HasHolder(s, m);
    if step.GiveRecursive? && s.Holds(step.t, step.m) {
      Held(s, step.t, step.m);
    }
  }

  lemma {:induction false} RecursiveHeld(s: State, steps: seq<Step>, t: Task, m: nat)
    requires Accounts(s) && Possible(s, steps) && s.Holds(t, m) && s.mutexes[m].recursive
    requires StaysAboveZero(s.mutexes[m].depth, steps, t, m)
    ensures Run(s, steps).Holds(t, m) && Run(s, steps).mutexes[m].recursive
    ensures Run(s, steps).mutexes[m].depth == Level(s.mutexes[m].depth, steps, t, m)
    decreases |steps|
  {
    if steps != [] {
      StepAccounts(s, steps[0]);
      StepDepth(s, steps[0], t, m);
      RecursiveHeld(Apply(s, steps[0]), steps[1..], t, m);
    }
  }

  /** A recursive mutex that `t` takes when it is free stays with `t`, whatever the other
      tasks do, until `t` has given it as often as it has taken it; exactly the give that
      matches the first take frees it. */
  lemma RecursiveRelease(s: State, steps: seq<Step>, t: Task, m: nat)
    requires Accounts(s) && Enabled(s, TakeRecursive(t, m)) && s.mutexes[m].count > 0
    requires Accounts(Apply(s, TakeRecursive(t, m))) && Possible(Apply(s, TakeRecursive(t, m)), steps)
    requires StaysAboveZero(1, steps, t, m)
    ensures var r := Run(Apply(s, TakeRecursive(t, m)), steps);
            && r.Holds(t, m)
            && (Enabled(r, GiveRecursive(t, m)) ==>
                  var f := Apply(r, GiveRecursive(t, m));
                  if Level(1, steps, t, m) == 1 then !f.Holds(t, m) && m in f.mutexes && f.mutexes[m].count == 1
                  else f.Holds(t, m))
  {
    HasHolder(s, m);
    var s1 := Apply(s, TakeRecursive(t, m));
    RecursiveHeld(s1, steps, t, m);
    var r := Run(s1, steps);
    Held(r, t, m);
  }

  // ----------------------------------------------------------------- the code of the steps

  /** A give: one mutex held less, with the last one back to the base priority, which stays;
      the mutex is free, and its first waiter ready. */
  ghost predicate GivenBack(s: State, r: State, t: Task, m: nat) {
    && t in s.ranks && t in r.ranks && s.ranks[t].held > 0 && m in s.mutexes && m in r.mutexes
    && r.ranks == s.ranks[t := r.ranks[t]] && r.ranks[t].held == s.ranks[t].held - 1
    && r.ranks[t].base == s.ranks[t].base
    && r.ranks[t].priority == (if r.ranks[t].held == 0 then s.ranks[t].base else s.ranks[t].priority)
    && r.mutexes[m].holder == None && r.mutexes[m].count == s.mutexes[m].count + 1
    && if s.mutexes[m].waiters == [] then r.mutexes[m].waiters == [] && r.ready == s.ready
       else r.mutexes[m].waiters == s.mutexes[m].waiters[1..] && r.ready == s.ready + {s.mutexes[m].waiters[0]}
  }

  class MutexQueues {
    var ranks: map<Task, Rank>
    var mutexes: map<nat, Mutex>
    var ready: set<Task>
    var raised: set<Task>            // the tasks with xInheritanceOccurred

    function View(): State
      reads this
    {
      State(ranks, mutexes, ready, raised)
    }

    // The critical section of xQueueSemaphoreTake on a mutex, with pvTaskIncrementMutexHeldCount
    method SemaphoreTake(t: Task, m: nat) returns (taken: bool)
      requires Accounts(View()) && View().Runs(t, m)
      modifies this
      ensures taken <==> old(mutexes)[m].count > 0
      ensures View() == if taken then var r := CameRound(old(View()), t, m);
                                      var x := r.mutexes[m];
                                      r.With(t, r.ranks[t].Take(), m, x.(count := x.count - 1, holder := Some(t)))
                                      .(raised := old(raised) - {t})
                        else CameRound(old(View()), t, m)
    {
      hide Accounts;
      mutexes := mutexes[m := mutexes[m].(woken := mutexes[m].woken - {t})];
      taken := mutexes[m].count > 0;
      if taken {
        mutexes := mutexes[m := mutexes[m].(count := mutexes[m].count - 1)];
        ranks := ranks[t := ranks[t].(held := ranks[t].held + 1)];
        mutexes := mutexes[m := mutexes[m].(holder := Some(t))];
        raised := raised - {t};
      }
    }

    // The same, on a mutex that is not recursive
    method TakeMutex(t: Task, m: nat) returns (taken: bool)
      requires Accounts(View()) && Enabled(View(), Take(t, m))
      modifies this
      ensures Accounts(View()) && View() == Apply(old(View()), Take(t, m))
      ensures taken <==> old(mutexes)[m].count > 0
      ensures taken ==> ranks == old(ranks)[t := old(ranks)[t].(held := old(ranks)[t].held + 1)]
                        && mutexes[m].holder == Some(t) && mutexes[m].count == old(mutexes)[m].count - 1
    {
      hide Accounts;
      StepAccounts(View(), Take(t, m));
      taken := SemaphoreTake(t, m);
    }

    // xQueueTakeMutexRecursive, up to the blocking
    method TakeMutexRecursive(t: Task, m: nat) returns (taken: bool)
      requires Accounts(View()) && Enabled(View(), TakeRecursive(t, m))
      modifies this
      ensures Accounts(View()) && View() == Apply(old(View()), TakeRecursive(t, m))
      ensures taken <==> old(View()).Holds(t, m) || old(mutexes)[m].count > 0
      ensures taken ==> mutexes[m].holder == Some(t) && mutexes[m].depth == old(mutexes)[m].depth + 1
      ensures !taken || old(View()).Holds(t, m) ==> ranks == old(ranks)
      ensures taken && !old(View()).Holds(t, m) ==>
                ranks == old(ranks)[t := old(ranks)[t].(held := old(ranks)[t].held + 1)]
    {
      hide Accounts;
      StepAccounts(View(), TakeRecursive(t, m));
      if mutexes[m].holder == Some(t) {
        mutexes := mutexes[m := mutexes[m].(woken := mutexes[m].woken - {t})];
        mutexes := mutexes[m := mutexes[m].(depth := mutexes[m].depth + 1)];
        raised, taken := raised - {t}, true;
      } else {
        taken := SemaphoreTake(t, m);
        if taken {
          mutexes := mutexes[m := mutexes[m].(depth := mutexes[m].depth + 1)];
        }
      }
      assert mutexes == Apply(old(View()), Step.TakeRecursive(t, m)).mutexes;
    }

    // xQueueGenericSend on a mutex
    method GiveMutex(t: Task, m: nat) returns (given: bool)
      requires Accounts(View()) && Enabled(View(), Give(t, m))
      modifies this
      ensures Accounts(View()) && View() == Apply(old(View()), Give(t, m))
      ensures given <==> old(mutexes)[m].count == 0
      ensures given ==> GivenBack(old(View()), View(), t, m)
    {
      hide Accounts;
      StepAccounts(View(), Give(t, m));
      HasHolder(View(), m);
      given := mutexes[m].count < 1;
      if given {
        Held(View(), t, m);
        SendToMutex(t, m);
      }
    }

    // The successful branch: prvCopyDataToQueue, and the first waiter is woken
    method SendToMutex(t: Task, m: nat)
      requires t in ranks && ranks[t].held > 0 && m in mutexes && mutexes[m].depth == 0
      modifies this
      ensures View() == Released(old(View()), t, m)
      ensures GivenBack(old(View()), View(), t, m)
    {
      var b := ranks[t].(held := ranks[t].held - 1);
      if b.priority != b.base {
        if b.held == 0 {
          b := b.(priority := b.base);
        }
      }
      ranks := ranks[t := b];
      mutexes := mutexes[m := mutexes[m].(holder := None, count := mutexes[m].count + 1)];
      if mutexes[m].waiters != [] {
        var w := mutexes[m].waiters[0];
        mutexes := mutexes[m := mutexes[m].(waiters := mutexes[m].waiters[1..], woken := mutexes[m].woken + {w})];
        ready := ready + {w};
      }
    }

    // xQueueGiveMutexRecursive
    method GiveMutexRecursive(t: Task, m: nat) returns (given: bool)
      requires Accounts(View()) && Enabled(View(), GiveRecursive(t, m))
      modifies this
      ensures Accounts(View()) && View() == Apply(old(View()), GiveRecursive(t, m))
      ensures given <==> old(View()).Holds(t, m)
      ensures given && old(mutexes)[m].depth == 1 ==> GivenBack(old(View()), View(), t, m)
      ensures given && old(mutexes)[m].depth > 1 ==> ranks == old(ranks) && mutexes[m].holder == Some(t)
                                                     && mutexes[m].depth == old(mutexes)[m].depth - 1
    {
      hide Accounts;
      StepAccounts(View(), GiveRecursive(t, m));
      given := mutexes[m].holder == Some(t);
      if given {
        Held(View(), t, m);
        HasHolder(View(), m);
        mutexes := mutexes[m := mutexes[m].(depth := mutexes[m].depth - 1)];
        if mutexes[m].depth == 0 {
          LetGoForgets(old(View()), View(), t, m);
          SendToMutex(t, m);
        }
      }
    }

    // The blocking branch of xQueueSemaphoreTake: xTaskPriorityInherit, vTaskPlaceOnEventList
    method BlockOnMutex(t: Task, m: nat)
      requires Accounts(View()) && Enabled(View(), Block(t, m))
      modifies this
      ensures Accounts(View()) && View() == Apply(old(View()), Block(t, m))
      ensures old(mutexes)[m].holder.Some? && old(mutexes)[m].holder.value in old(ranks)
      ensures var h, p := old(mutexes)[m].holder.value, old(ranks)[t].priority;
              && ranks == old(ranks)[h := old(ranks)[h].(priority := Higher(old(ranks)[h].priority, p))]
              && ready == old(ready) - {t}
    {
      hide Accounts;
      StepAccounts(View(), Block(t, m));
      HasHolder(View(), m);
      var h, p := mutexes[m].holder.value, ranks[t].priority;
      raised := if ranks[h].Inherits(p) then raised + {t} else raised - {t};
      if ranks[h].priority < p {
        ranks := ranks[h := ranks[h].(priority := p)];
      }
      var q := mutexes[m].waiters;
      var i := InsertAt(View(), q, ranks[t].priority);
      InsertAtSame(View(), old(View()).(ranks := ranks), q, ranks[t].priority);
      mutexes := mutexes[m := mutexes[m].(waiters := q[..i] + [t] + q[i..], woken := mutexes[m].woken - {t})];
      ready := ready - {t};
      assert ranks == Apply(old(View()), Block(t, m)).ranks;
    }

    // vTaskPriorityDisinheritAfterTimeout with prvGetDisinheritPriorityAfterTimeout
    method GiveUpOnMutex(t: Task, m: nat)
      requires Accounts(View()) && Enabled(View(), GiveUp(t, m))
      modifies this
      ensures Accounts(View()) && View() == Apply(old(View()), GiveUp(t, m))
      ensures mutexes == old(mutexes) && ready == old(ready) && raised == old(raised) - {t}
      ensures t !in old(raised) || mutexes[m].holder == None ==> ranks == old(ranks)
      ensures t in old(raised) && mutexes[m].holder.Some? ==>
        var h, q := mutexes[m].holder.value, mutexes[m].waiters;
        && h in old(ranks)
        && var b := old(ranks)[h];
           var top := if q == [] then b.base else Higher(b.base, old(View()).Priority(q[0]));
           ranks == old(ranks)[h := if b.held == 1 then b.(priority := top) else b]
    {
      hide Accounts;
      StepAccounts(View(), GiveUp(t, m));
      if t in raised && mutexes[m].holder.Some? {
        var h := mutexes[m].holder.value;
        Held(View(), h, m);
        var highest := if mutexes[m].waiters == [] then 0 else View().Priority(mutexes[m].waiters[0]);
        var use := if ranks[h].base < highest then highest else ranks[h].base;
        if ranks[h].priority != use {
          if ranks[h].held == 1 {
            ranks := ranks[h := ranks[h].(priority := use)];
          }
        }
      }
      assert ranks == Changed(old(View()), GiveUp(t, m)).ranks;
      raised := raised - {t};
    }
  }

  lemma LetGoForgets(s: State, r: State, t: Task, m: nat)
    requires t in s.ranks && s.ranks[t].held > 0 && m in s.mutexes
    requires r == s.(mutexes := s.mutexes[m := s.mutexes[m].(depth := 0)])
    ensures Released(r, t, m) == Released(s, t, m)
  {
    assert LetGo(r, t, m).mutexes == LetGo(s, t, m).mutexes;
  }

  lemma InsertAtSame(s: State, r: State, q: seq<Task>, p: nat)
    requires s.ranks == r.ranks
    ensures InsertAt(s, q, p) == InsertAt(r, q, p)
  {
  }
}
