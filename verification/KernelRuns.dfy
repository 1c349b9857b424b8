/** Runs of kernel calls, as their contracts in `Kernels` describe what they do to the lists:
    who gets the turn, and who is woken first. */
module KernelRuns {
  import opened Rings
  import opened Clocks
  import opened Words
  import opened KernelLists
  import opened KernelSteps

  /** `calls[i]` is what call number `i` does to the lists `stores[i]`. */
  ghost predicate IsRun(stores: seq<Store>, calls: seq<seq<ListOp>>)
    decreases |calls|
  {
    && |stores| == |calls| + 1 && stores[0].Ok()
    && (calls == [] || (Moved(stores[0], stores[1], calls[0]) && IsRun(stores[1..], calls[1..])))
  }

  ghost function All(calls: seq<seq<ListOp>>): seq<ListOp> {
    if calls == [] then [] else calls[0] + All(calls[1..])
  }

  lemma RunTail(stores: seq<Store>, calls: seq<seq<ListOp>>)
    requires IsRun(stores, calls) && calls != []
    ensures IsRun(stores[1..], calls[1..]) && Moved(stores[0], stores[1], calls[0])
  {
  }

  lemma {:induction false} RunMoved(stores: seq<Store>, calls: seq<seq<ListOp>>)
    requires IsRun(stores, calls)
    ensures Moved(stores[0], stores[|calls|], All(calls))
    decreases |calls|
  {
    hide Moved, Store.Ok;
    if calls == [] {
      MovedNever(stores[0], stores[0]);
    } else {
      RunTail(stores, calls);
      RunMoved(stores[1..], calls[1..]);
      MovedThen(stores[0], stores[1], stores[|calls|], calls[0], All(calls[1..]));
    }
  }

  // --------------------------------------------------------------------- round robin

  ghost predicate NoTurn(ops: seq<ListOp>) {
    forall i :: 0 <= i < |ops| ==> ops[i].op != Select
  }

  /** A call other than the context switch moves no index; the context switch moves one. */
  ghost predicate Orderly(calls: seq<seq<ListOp>>) {
    forall i :: 0 <= i < |calls| ==>
      NoTurn(calls[i]) || exists q :: calls[i] == [ListOp(Ready(q), Select)]
  }

  /** How often the context switch makes `z` the running task. */
  ghost function Selections(stores: seq<Store>, calls: seq<seq<ListOp>>, p: nat, z: Task): nat
    requires IsRun(stores, calls)
    decreases |calls|
  {
    if calls == [] then 0
    else
      RunTail(stores, calls);
      (if calls[0] == [ListOp(Ready(p), Select)] && Head(stores[0], p, z) then 1 else 0)
      + Selections(stores[1..], calls[1..], p, z)
  }

  /** `z` has the turn at priority `p`. */
  ghost predicate Head(s: Store, p: nat, z: Task) {
    var r := s.At(Ready(p));
    r.Valid() && r.items != [] && r.Turn()[0] == z
  }

  lemma {:induction false} PicksSplit<T>(r: Ring<T>, a: seq<Op<T>>, b: seq<Op<T>>, z: T)
    requires r.Valid()
    ensures Picks(r, a + b, z) == Picks(r, a, z) + Picks(PerformAll(r, a), b, z)
    decreases |a|
  {
    if a == [] {
      assert a + b == b;
    } else {
      assert (a + b)[1..] == a[1..] + b;
      PicksSplit(Perform(r, a[0]), a[1..], b, z);
    }
  }

  lemma {:induction false} NoPick<T>(r: Ring<T>, ops: seq<Op<T>>, z: T)
    requires r.Valid() && forall i :: 0 <= i < |ops| ==> ops[i] != Select
    ensures Picks(r, ops, z) == 0
    decreases |ops|
  {
    if ops != [] {
      NoPick(Perform(r, ops[0]), ops[1..], z);
    }
  }

  lemma {:induction false} NoTurnAt(ops: seq<ListOp>, name: ListName)
    requires NoTurn(ops)
    ensures forall i :: 0 <= i < |OpsAt(ops, name)| ==> OpsAt(ops, name)[i] != Select
  {
    if ops != [] {
      NoTurnAt(ops[1..], name);
    }
  }

  lemma ATurn(p: nat)
    ensures !NoTurn([ListOp(Ready(p), Select)])
  {
    assert [ListOp(Ready(p), Select)][0].op == Select;
  }

  lemma CallPicks(s: Store, call: seq<ListOp>, p: nat, z: Task)
    requires s.At(Ready(p)).Valid() && (NoTurn(call) || exists q :: call == [ListOp(Ready(q), Select)])
    ensures Picks(s.At(Ready(p)), OpsAt(call, Ready(p)), z)
         == if call == [ListOp(Ready(p), Select)] && Head(s, p, z) then 1 else 0
  {
    if NoTurn(call) {
      NoTurnAt(call, Ready(p));
      NoPick(s.At(Ready(p)), OpsAt(call, Ready(p)), z);
      ATurn(p);
    } else {
      var q :| call == [ListOp(Ready(q), Select)];
      var none: seq<ListOp> := [];
      assert call[1..] == none;
      var one: seq<Op<Task>> := [Select];
      assert one[1..] == [] && OpsAt(call, Ready(p)) == if p == q then one else [];
      if p == q {
        assert Picks(s.At(Ready(p)), one, z) == if SelectsNow(s.At(Ready(p)), Select, z) then 1 else 0;
      } else {
        assert call[0] != ListOp(Ready(p), Select);
      }
    }
  }

  lemma {:induction false} PicksAreSelections(stores: seq<Store>, calls: seq<seq<ListOp>>, p: nat, z: Task)
    requires IsRun(stores, calls) && Orderly(calls)
    ensures stores[0].At(Ready(p)).Valid()
    ensures Picks(stores[0].At(Ready(p)), OpsAt(All(calls), Ready(p)), z) == Selections(stores, calls, p, z)
    decreases |calls|
  {
    assert stores[0].ListOk(Ready(p));
    if calls != [] {
      hide Moved, Store.Ok, Picks, NoTurn, Head;
      RunTail(stores, calls);
      MovedHere(stores[0], stores[1], calls[0], Ready(p));
      PicksAreSelections(stores[1..], calls[1..], p, z);
      OpsAtSplit(calls[0], All(calls[1..]), Ready(p));
      PicksSplit(stores[0].At(Ready(p)), OpsAt(calls[0], Ready(p)), OpsAt(All(calls[1..]), Ready(p)), z);
      CallPicks(stores[0], calls[0], p, z);
    } else {
      assert OpsAt(All(calls), Ready(p)) == [];
    }
  }

  lemma MovedHere(s: Store, s': Store, ops: seq<ListOp>, name: ListName)
    requires Moved(s, s', ops)
    ensures MovedAt(s, s', ops, name)
  {
  }

  /** Round robin in runs of the kernel: when the context switch has given `y` the turn, and `y`
      next has it again, every other task of that priority that stays ready has been made the
      running task exactly once, whatever ticks, wake-ups, blocking and changes of priority there
      were in between. */
  lemma KernelRoundRobin(stores: seq<Store>, calls: seq<seq<ListOp>>, p: nat, y: Task, z: Task)
    requires IsRun(stores, calls) && Orderly(calls) && calls != [] && calls[0] == [ListOp(Ready(p), Select)]
    requires Head(stores[0], p, y) && z in stores[0].At(Ready(p)).items && y != z
    requires Keeps(OpsAt(All(calls[1..]), Ready(p)), y) && Keeps(OpsAt(All(calls[1..]), Ready(p)), z)
    requires Selections(stores, calls, p, y) == 1 && Head(stores[|calls|], p, y)
    ensures Selections(stores, calls, p, z) == 1
  {
    RunTail(stores, calls);
    var r, ops := stores[0].At(Ready(p)), OpsAt(All(calls[1..]), Ready(p));
    PicksAreSelections(stores[1..], calls[1..], p, y);
    PicksAreSelections(stores[1..], calls[1..], p, z);
    RunMoved(stores[1..], calls[1..]);
    MovedHere(stores[0], stores[1], calls[0], Ready(p));
    MovedHere(stores[1], stores[|calls|], All(calls[1..]), Ready(p));
    OneSelect(r, p);
    TurnDistinct(r);
    NextTurn(r);
    RoundRobinIsFair(r, ops, y, z);
  }

  lemma OneSelect(r: Ring<Task>, p: nat)
    requires r.Valid() && r.items != []
    ensures PerformAll(r, OpsAt([ListOp(Ready(p), Select)], Ready(p))) == r.Next()
  {
    var none: seq<ListOp> := [];
    assert [ListOp(Ready(p), Select)][1..] == none;
    var one: seq<Op<Task>> := [Select];
    assert one[1..] == [] && OpsAt([ListOp(Ready(p), Select)], Ready(p)) == one;
  }

  /** What the contracts of the calls say is done to the lists never moves an index, except for
      the context switch. */
  lemma NobodyTurns(b: Tcb, t: Task, to: ListName, from: ListName, p: nat, i: nat, ts: seq<Task>,
                    tcb: map<Task, Tcb>)
    ensures NoTurn(Wakes(ts, tcb)) && NoTurn(OffBoth(b, t)) && NoTurn(OffBoth(b, t) + [ListOp(to, Add(t))])
    ensures NoTurn(Requeued(b, p, t)) && NoTurn([ListOp(to, Add(t))])
    ensures NoTurn([ListOp(from, Drop(t)), ListOp(to, Add(t))])
    ensures NoTurn([ListOp(from, Drop(t)), ListOp(to, Put(i, t))])
    ensures NoTurn([ListOp(from, Drop(t)), ListOp(to, Drop(t)), ListOp(Ready(p), Add(t))])
  {
    WakesTurnNothing(ts, tcb);
  }

  lemma {:induction false} WakesTurnNothing(ts: seq<Task>, tcb: map<Task, Tcb>)
    ensures NoTurn(Wakes(ts, tcb))
  {
    if ts != [] {
      WakesTurnNothing(ts[1..], tcb);
    }
  }

  // ------------------------------------------------------------------ waiting by priority

  /** The waiters of an event list in order of priority, their item values being those that
      their priorities give. */
  ghost predicate ByPriority(items: seq<Task>, tcb: map<Task, Tcb>) {
    && (forall t <- items :: t in tcb && Valued(tcb[t]))
    && forall i, j :: 0 <= i < j < |items| ==> tcb[items[j]].priority <= tcb[items[i]].priority
  }

  ghost predicate Valued(b: Tcb) {
    b.priority < MAX_PRIORITIES && b.eventValue == MAX_PRIORITIES - b.priority
  }

  lemma NewTaskValued(p: nat)
    requires p < MAX_PRIORITIES
    ensures Valued(NewTcb(p)) && NewTcb(p).priority == p && NewTcb(p).basePriority == p && NewTcb(p).mutexesHeld == 0
  {
  }

  /** A task that joins an event list goes behind every waiter of its priority or a higher one,
      and in front of all others. */
  lemma JoinsByPriority(items: seq<Task>, tcb: map<Task, Tcb>, t: Task)
    requires ByPriority(items, tcb) && t in tcb && Valued(tcb[t])
    ensures var p := SortPosition(items, tcb, true, tcb[t].eventValue);
            && (forall k :: 0 <= k < |items| ==> (k < p <==> tcb[t].priority <= tcb[items[k]].priority))
            && ByPriority(items[..p] + [t] + items[p..], tcb)
  {
    hide SortPosition;
    var p := SortPosition(items, tcb, true, tcb[t].eventValue);
    forall k | 0 <= k < |items| ensures k < p <==> tcb[t].priority <= tcb[items[k]].priority {
      assert items[k] in items;
      if p <= k {
        assert items[p] in items;
        assert tcb[items[k]].priority <= tcb[items[p]].priority;
      }
    }
    JoinedInOrder(items, tcb, t, p);
  }

  lemma JoinedInOrder(items: seq<Task>, tcb: map<Task, Tcb>, t: Task, p: nat)
    requires ByPriority(items, tcb) && t in tcb && Valued(tcb[t]) && p <= |items|
    requires forall k :: 0 <= k < |items| ==> (k < p <==> tcb[t].priority <= tcb[items[k]].priority)
    ensures ByPriority(items[..p] + [t] + items[p..], tcb)
  {
    hide Valued;
    var w := items[..p] + [t] + items[p..];
    InsertMembers(items, p, t);
    forall i, j | 0 <= i < j < |w| ensures tcb[w[j]].priority <= tcb[w[i]].priority {
      JoinedAt(items, t, p, i);
      JoinedAt(items, t, p, j);
    }
  }

  lemma JoinedAt(items: seq<Task>, t: Task, p: nat, i: nat)
    requires p <= |items| && i <= |items|
    ensures (items[..p] + [t] + items[p..])[i] == if i < p then items[i] else if i == p then t else items[i - 1]
  {
  }

  /** Leaving the list keeps the others in order. */
  lemma LeavesByPriority(items: seq<Task>, tcb: map<Task, Tcb>, t: Task)
    requires ByPriority(items, tcb)
    ensures ByPriority(Lose(items, t), tcb)
  {
    if t in items {
      var w := Without(items, t);
      forall k | 0 <= k < |w| ensures w[k] == items[if k < Position(items, t) then k else k + 1] {
        WithoutAt(items, t, k);
      }
      forall u | u in w ensures u in items {}
    }
  }

  /** So the waiter that an event wakes, the first one, is of the highest priority, and has
      waited longest among those. */
  lemma WokenIsHighest(items: seq<Task>, tcb: map<Task, Tcb>)
    requires ByPriority(items, tcb) && items != []
    ensures forall t <- items :: tcb[t].priority <= tcb[items[0]].priority
    ensures ByPriority(items[1..], tcb)
  {
    forall t | t in items ensures tcb[t].priority <= tcb[items[0]].priority {
      var k :| 0 <= k < |items| && items[k] == t;
    }
  }
}
