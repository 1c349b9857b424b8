/** The task control blocks of lib/FreeRTOS/tasks.c and the lists their two list items are on. */
module KernelLists {
  import opened Rings
  import opened Clocks
  import opened Words
  import opened Ranks

  const MAX_PRIORITIES: nat := 7

  // taskEVENT_LIST_ITEM_VALUE_IN_USE
  const VALUE_IN_USE: nat := 0x8000_0000

  /** A TCB: `stateIn` and `eventIn` are the containers of its xStateListItem and
      xEventListItem, `stateValue` and `eventValue` the item values. */
  datatype Tcb = Tcb(
    priority: nat, basePriority: nat, mutexesHeld: nat,
    stateValue: nat, stateIn: Option<ListName>,
    eventValue: nat, eventIn: Option<ListName>)
  {
    function Holder(event: bool): Option<ListName> {
      if event then eventIn else stateIn
    }

    function MoveTo(event: bool, to: Option<ListName>): Tcb {
      if event then this.(eventIn := to) else this.(stateIn := to)
    }

    function Key(event: bool): nat {
      if event then eventValue else stateValue
    }

    function Ranked(): Rank {
      Rank(priority, basePriority, mutexesHeld)
    }

    function WithRank(r: Rank, v: nat): Tcb {
      this.(priority := r.priority, basePriority := r.base, mutexesHeld := r.held, eventValue := v)
    }

    /** The event item value for priority `p`, unless the value is in use for something else. */
    function ValueFor(p: nat): nat
      requires p < MAX_PRIORITIES
    {
      if eventValue < VALUE_IN_USE then MAX_PRIORITIES - p else eventValue
    }
  }

  /** Event lists and the pending-ready list link event items, all others state items. */
  predicate HoldsEvents(name: ListName) {
    name.Event? || name.PendingReady?
  }

  /** In front of the first item with a larger value, as in vListInsert. */
  function SortPosition(items: seq<Task>, tcb: map<Task, Tcb>, event: bool, v: nat): (i: nat)
    requires forall t <- items :: t in tcb
    ensures i <= |items|
    ensures forall k :: 0 <= k < i ==> tcb[items[k]].Key(event) <= v
    ensures i < |items| ==> v < tcb[items[i]].Key(event)
  {
    var keys := seq(|items|, k requires 0 <= k < |items| => tcb[items[k]].Key(event));
    assert forall k {:trigger items[k]} :: 0 <= k < |items| ==> keys[k] == tcb[items[k]].Key(event);
    InFrontOfLarger(keys, v)
  }

  ghost predicate SortedByTime(items: seq<Task>, tcb: map<Task, Tcb>) {
    && (forall t <- items :: t in tcb)
    && forall i, j :: 0 <= i < j < |items| ==> tcb[items[i]].stateValue <= tcb[items[j]].stateValue
  }

  datatype Store = Store(lists: map<ListName, Ring<Task>>, tcb: map<Task, Tcb>) {

    function At(name: ListName): Ring<Task> {
      if name in lists then lists[name] else Ring([], 0)
    }

    ghost predicate On(t: Task, name: ListName) {
      t in tcb && tcb[t].Holder(HoldsEvents(name)) == Some(name)
    }

    /** Containers and lists agree: a list holds just the items that name it. */
    ghost predicate ListOk(name: ListName) {
      At(name).Valid() && forall t :: t in At(name).items <==> On(t, name)
    }

    ghost predicate Ok() {
      forall name :: ListOk(name)
    }

    /** uxListRemove on one of the two items of `t`. */
    function Remove(event: bool, t: Task): Store
      requires t in tcb && tcb[t].Holder(event).Some?
      requires t in At(tcb[t].Holder(event).value).items
    {
      var name := tcb[t].Holder(event).value;
      Store(lists[name := At(name).Remove(t)], tcb[t := tcb[t].MoveTo(event, None)])
    }

    /** vListInsertEnd. */
    function AddEnd(name: ListName, t: Task): Store
      requires t in tcb && At(name).Valid()
    {
      Store(lists[name := At(name).InsertEnd(t)], tcb[t := tcb[t].MoveTo(HoldsEvents(name), Some(name))])
    }

    /** vListInsert. */
    function AddSorted(name: ListName, t: Task): Store
      requires t in tcb && At(name).Valid() && forall u <- At(name).items :: u in tcb
    {
      var event := HoldsEvents(name);
      var p := SortPosition(At(name).items, tcb, event, tcb[t].Key(event));
      Store(lists[name := At(name).Insert(p, t)], tcb[t := tcb[t].MoveTo(event, Some(name))])
    }
  }

  /** A change of one TCB, and of the list that its item joins or leaves, keeps order if
      that list is in order. */
  lemma OneListChanged(s: Store, s': Store, name: ListName, t: Task, b: Tcb)
    requires s.Ok() && t in s.tcb && s'.tcb == s.tcb[t := b] && s'.ListOk(name)
    requires forall other :: other != name ==> s'.At(other) == s.At(other)
    requires forall other :: other != name ==>
               (b.Holder(HoldsEvents(other)) == Some(other) <==> s.On(t, other))
    ensures s'.Ok()
  {
    forall other ensures s'.ListOk(other) {
      if other != name {
        assert s.ListOk(other);
        forall u ensures u in s'.At(other).items <==> s'.On(u, other) {
          assert u in s.At(other).items <==> s.On(u, other);
        }
      }
    }
  }

  lemma RemoveOk(s: Store, event: bool, t: Task)
    requires s.Ok() && t in s.tcb && s.tcb[t].Holder(event).Some?
    requires HoldsEvents(s.tcb[t].Holder(event).value) == event
    ensures t in s.At(s.tcb[t].Holder(event).value).items
    ensures s.Remove(event, t).Ok()
  {
    var name := s.tcb[t].Holder(event).value;
    assert s.ListOk(name) && s.On(t, name);
    var s' := s.Remove(event, t);
    assert s'.ListOk(name) by {
      RemoveTurn(s.At(name), t);
      WithoutMembers(s.At(name).items, t);
      forall u ensures u in s'.At(name).items <==> s'.On(u, name) {
        assert u in s.At(name).items <==> s.On(u, name);
      }
    }
    OneListChanged(s, s', name, t, s.tcb[t].MoveTo(event, None));
  }

  lemma AddOk(s: Store, s': Store, name: ListName, t: Task, p: nat)
    requires s.Ok() && t in s.tcb && s.tcb[t].Holder(HoldsEvents(name)) == None
    requires p <= |s.At(name).items|
    requires s' == Store(s.lists[name := s.At(name).Insert(p, t)],
                         s.tcb[t := s.tcb[t].MoveTo(HoldsEvents(name), Some(name))])
    ensures s'.Ok()
  {
    assert s.ListOk(name) && !s.On(t, name);
    assert s'.ListOk(name) by {
      InsertDistinct(s.At(name).items, p, t);
      InsertMembers(s.At(name).items, p, t);
      forall u ensures u in s'.At(name).items <==> s'.On(u, name) {
        assert u in s.At(name).items <==> s.On(u, name);
      }
    }
    OneListChanged(s, s', name, t, s'.tcb[t]);
  }

  lemma AddEndOk(s: Store, name: ListName, t: Task)
    requires s.Ok() && t in s.tcb && s.tcb[t].Holder(HoldsEvents(name)) == None
    ensures s.At(name).Valid() && s.AddEnd(name, t).Ok()
  {
    var r := s.At(name);
    assert s.ListOk(name);
    var p := if r.index == 0 then |r.items| else r.index - 1;
    InsertEndAt(r, p, t);
    AddOk(s, s.AddEnd(name, t), name, t, p);
  }

  lemma AddSortedOk(s: Store, name: ListName, t: Task)
    requires s.Ok() && t in s.tcb && s.tcb[t].Holder(HoldsEvents(name)) == None
    ensures s.At(name).Valid() && (forall u <- s.At(name).items :: u in s.tcb)
    ensures s.AddSorted(name, t).Ok()
  {
    assert s.ListOk(name);
    var event := HoldsEvents(name);
    var p := SortPosition(s.At(name).items, s.tcb, event, s.tcb[t].Key(event));
    AddOk(s, s.AddSorted(name, t), name, t, p);
  }

  /** A change of the other TCB fields leaves the lists in order. */
  lemma UpdateOk(s: Store, t: Task, b: Tcb)
    requires s.Ok() && t in s.tcb
    requires b.stateIn == s.tcb[t].stateIn && b.eventIn == s.tcb[t].eventIn
    ensures Store(s.lists, s.tcb[t := b]).Ok()
  {
    var s' := Store(s.lists, s.tcb[t := b]);
    forall other ensures s'.ListOk(other) {
      assert s.ListOk(other);
      forall u ensures u in s'.At(other).items <==> s'.On(u, other) {
        assert u in s.At(other).items <==> s.On(u, other);
      }
    }
  }

  lemma NotWaiting(s: Store, t: Task, name: ListName)
    requires s.Ok() && t in s.tcb && s.tcb[t].Holder(HoldsEvents(name)) != Some(name)
    ensures t !in s.At(name).items
  {
    assert s.ListOk(name) && !s.On(t, name);
  }

  /** Each item is linked into a list of its own kind, the state item always. */
  ghost predicate Placed(b: Tcb) {
    && b.stateIn.Some? && !HoldsEvents(b.stateIn.value)
    && (b.eventIn.Some? ==> HoldsEvents(b.eventIn.value))
  }

  /** The effect of Rehome: `t` is at the end of the list `name` and on no event list, and the
      other lists lose at most `t`. */
  ghost predicate Rehomed(s: Store, s': Store, t: Task, name: ListName) {
    && s'.Ok() && t in s.tcb
    && s'.tcb == s.tcb[t := s.tcb[t].(stateIn := Some(name), eventIn := None)]
    && (forall other :: other != name ==> s'.At(other).items == Lose(s.At(other).items, t))
    && (s.tcb[t].stateIn != Some(name) ==>
          s.At(name).Valid() && s'.At(name) == s.At(name).InsertEnd(t))
  }

  ghost function Lose<T>(items: seq<T>, t: T): seq<T> {
    if t in items then Without(items, t) else items
  }

  lemma LoseHead<T>(items: seq<T>)
    requires Distinct(items) && items != []
    ensures Lose(items, items[0]) == items[1..]
  {
    PositionUnique(items, 0);
  }

  /** Only the list `name` changes, and of the TCBs only that of `t`. */
  ghost predicate OnlyAt(s: Store, s': Store, name: ListName, t: Task, b: Tcb) {
    && s'.Ok() && t in s.tcb && s'.tcb == s.tcb[t := b]
    && forall other :: other != name ==> s'.At(other) == s.At(other)
  }

  // ------------------------------------------------------------- what happens to the lists

  /** An operation on one of the lists. */
  datatype ListOp = ListOp(name: ListName, op: Op<Task>)

  ghost function OpsAt(ops: seq<ListOp>, name: ListName): seq<Op<Task>> {
    if ops == [] then []
    else (if ops[0].name == name then [ops[0].op] else []) + OpsAt(ops[1..], name)
  }

  /** Each list of `s'`, with its index, is that of `s` after the operations on it in `ops`. */
  ghost predicate Moved(s: Store, s': Store, ops: seq<ListOp>) {
    forall name :: MovedAt(s, s', ops, name)
  }

  ghost predicate MovedAt(s: Store, s': Store, ops: seq<ListOp>, name: ListName) {
    s.At(name).Valid() && s'.At(name) == PerformAll(s.At(name), OpsAt(ops, name))
  }

  lemma {:induction false} OpsAtSplit(a: seq<ListOp>, b: seq<ListOp>, name: ListName)
    ensures OpsAt(a + b, name) == OpsAt(a, name) + OpsAt(b, name)
  {
    if a == [] {
      assert a + b == b;
    } else {
      assert (a + b)[1..] == a[1..] + b;
      OpsAtSplit(a[1..], b, name);
      var first := if a[0].name == name then [a[0].op] else [];
      assert first + (OpsAt(a[1..], name) + OpsAt(b, name)) == (first + OpsAt(a[1..], name)) + OpsAt(b, name);
    }
  }

  lemma MovedThen(s: Store, s1: Store, s2: Store, a: seq<ListOp>, b: seq<ListOp>)
    requires Moved(s, s1, a) && Moved(s1, s2, b)
    ensures Moved(s, s2, a + b)
  {
    forall name ensures MovedAt(s, s2, a + b, name) {
      assert MovedAt(s, s1, a, name) && MovedAt(s1, s2, b, name);
      OpsAtSplit(a, b, name);
      PerformSplit(s.At(name), OpsAt(a, name), OpsAt(b, name));
    }
  }

  lemma MovedOnce(s: Store, s': Store, x: ListOp)
    requires s.Ok() && s'.At(x.name) == (assert s.ListOk(x.name); Perform(s.At(x.name), x.op))
    requires forall other :: other != x.name ==> s'.At(other) == s.At(other)
    ensures Moved(s, s', [x])
  {
    forall name ensures MovedAt(s, s', [x], name) {
      assert s.ListOk(name);
      assert [x][1..] == [] && OpsAt([x], name) == if name == x.name then [x.op] else [];
      assert [x.op][1..] == [];
    }
  }

  lemma MovedNever(s: Store, s': Store)
    requires s.Ok() && forall name :: s'.At(name) == s.At(name)
    ensures Moved(s, s', [])
  {
    forall name ensures MovedAt(s, s', [], name) {
      assert s.ListOk(name);
    }
  }

  /** `t` leaves the list that one of its items is on. */
  ghost function Off(from: Option<ListName>, t: Task): seq<ListOp> {
    if from.Some? then [ListOp(from.value, Drop(t))] else []
  }

  /** `t` leaves its lists, first the state list. */
  ghost function OffBoth(b: Tcb, t: Task): seq<ListOp> {
    Off(b.stateIn, t) + Off(b.eventIn, t)
  }

  // uxListRemove
  method Unlink(s: Store, event: bool, t: Task) returns (s': Store)
    requires s.Ok() && t in s.tcb && s.tcb[t].Holder(event).Some?
    requires HoldsEvents(s.tcb[t].Holder(event).value) == event
    ensures var name := s.tcb[t].Holder(event).value;
            && OnlyAt(s, s', name, t, s.tcb[t].MoveTo(event, None))
            && t in s.At(name).items && s'.At(name) == s.At(name).Remove(t)
    ensures Moved(s, s', Off(s.tcb[t].Holder(event), t))
  {
    RemoveOk(s, event, t);
    s' := s.Remove(event, t);
    MovedOnce(s, s', ListOp(s.tcb[t].Holder(event).value, Drop(t)));
  }

  // vListInsertEnd
  method LinkEnd(s: Store, name: ListName, t: Task) returns (s': Store)
    requires s.Ok() && t in s.tcb && s.tcb[t].Holder(HoldsEvents(name)) == None
    ensures OnlyAt(s, s', name, t, s.tcb[t].MoveTo(HoldsEvents(name), Some(name)))
    ensures s.At(name).Valid() && s'.At(name) == s.At(name).InsertEnd(t)
    ensures Moved(s, s', [ListOp(name, Add(t))])
  {
    AddEndOk(s, name, t);
    s' := s.AddEnd(name, t);
    NotWaiting(s, t, name);
    MovedOnce(s, s', ListOp(name, Add(t)));
  }

  // vListInsert
  method LinkSorted(s: Store, name: ListName, t: Task) returns (s': Store)
    requires s.Ok() && t in s.tcb && s.tcb[t].Holder(HoldsEvents(name)) == None
    ensures OnlyAt(s, s', name, t, s.tcb[t].MoveTo(HoldsEvents(name), Some(name)))
    ensures s.At(name).Valid() && (forall u <- s.At(name).items :: u in s.tcb)
    ensures t !in s.At(name).items
    ensures var event := HoldsEvents(name);
            var p := SortPosition(s.At(name).items, s.tcb, event, s.tcb[t].Key(event));
            s'.At(name) == s.At(name).Insert(p, t) && Moved(s, s', [ListOp(name, Put(p, t))])
    ensures !HoldsEvents(name) && SortedByTime(s.At(name).items, s.tcb) ==>
              SortedByTime(s'.At(name).items, s'.tcb)
  {
    AddSortedOk(s, name, t);
    assert s.ListOk(name) && !s.On(t, name);
    s' := s.AddSorted(name, t);
    MovedOnce(s, s', ListOp(name, Put(SortPosition(s.At(name).items, s.tcb, HoldsEvents(name),
                                                   s.tcb[t].Key(HoldsEvents(name))), t)));
    if !HoldsEvents(name) && SortedByTime(s.At(name).items, s.tcb) {
      SortedInsert(s.At(name).items, s.tcb, t);
      SortedSame(s'.At(name).items, s.tcb, s'.tcb);
    }
  }

  lemma SortedSame(items: seq<Task>, tcb: map<Task, Tcb>, tcb': map<Task, Tcb>)
    requires SortedByTime(items, tcb) && forall u <- items :: u in tcb' && tcb'[u].stateValue == tcb[u].stateValue
    ensures SortedByTime(items, tcb')
  {
  }

  lemma MovedFrom(s: Store, s1: Store, s2: Store, ops: seq<ListOp>)
    requires Moved(s1, s2, ops) && s1.lists == s.lists
    ensures Moved(s, s2, ops)
  {
    forall name ensures MovedAt(s, s2, ops, name) {
      assert MovedAt(s1, s2, ops, name);
    }
  }

  /** Off its state list and, if it is on one, its event list. */
  method Detach(s: Store, t: Task) returns (s': Store)
    requires s.Ok() && t in s.tcb && Placed(s.tcb[t])
    ensures s'.Ok() && s'.tcb == s.tcb[t := s.tcb[t].(stateIn := None, eventIn := None)]
    ensures forall name :: s'.At(name).items == Lose(s.At(name).items, t)
    ensures forall name :: Some(name) != s.tcb[t].stateIn && Some(name) != s.tcb[t].eventIn ==>
              s'.At(name) == s.At(name)
    ensures Moved(s, s', OffBoth(s.tcb[t], t))
  {
    hide Store.Ok, Store.ListOk, Moved, OffBoth;
    s' := Unlink(s, false, t);
    ghost var s1 := s';
    OffBothIs(s.tcb[t], t);
    if s'.tcb[t].eventIn.Some? {
      s' := Unlink(s', true, t);
      MovedThen(s, s1, s', Off(s.tcb[t].stateIn, t), Off(s.tcb[t].eventIn, t));
    }
    Detached(s, s', t);
  }

  lemma OffBothIs(b: Tcb, t: Task)
    ensures OffBoth(b, t) == Off(b.stateIn, t) + Off(b.eventIn, t)
    ensures b.eventIn == None ==> OffBoth(b, t) == Off(b.stateIn, t)
  {
  }

  lemma Detached(s: Store, s': Store, t: Task)
    requires s.Ok() && t in s.tcb && Placed(s.tcb[t]) && Moved(s, s', OffBoth(s.tcb[t], t))
    ensures forall name :: s'.At(name).items == Lose(s.At(name).items, t)
    ensures forall name :: Some(name) != s.tcb[t].stateIn && Some(name) != s.tcb[t].eventIn ==>
              s'.At(name) == s.At(name)
  {
    hide Store.Ok;
    forall name
      ensures s'.At(name).items == Lose(s.At(name).items, t)
      ensures Some(name) != s.tcb[t].stateIn && Some(name) != s.tcb[t].eventIn ==> s'.At(name) == s.At(name)
    {
      assert MovedAt(s, s', OffBoth(s.tcb[t], t), name);
      OffAt(s.tcb[t], t, name);
      if s.tcb[t].Holder(HoldsEvents(name)) != Some(name) {
        NotWaiting(s, t, name);
      } else {
        assert PerformAll(s.At(name), [Drop(t)]) == Perform(s.At(name), Drop(t));
      }
    }
  }

  /** What leaving its lists means for list `name`. */
  lemma OffAt(b: Tcb, t: Task, name: ListName)
    requires Placed(b)
    ensures OpsAt(OffBoth(b, t), name) == if b.Holder(HoldsEvents(name)) == Some(name) then [Drop(t)] else []
    ensures [Drop(t)][1..] == []
  {
    OpsAtSplit(Off(b.stateIn, t), Off(b.eventIn, t), name);
    assert forall x: ListOp :: [x][1..] == [];
  }

  /** The same, and to the end of `name`. */
  method Rehome(s: Store, t: Task, name: ListName) returns (s': Store)
    requires s.Ok() && t in s.tcb && Placed(s.tcb[t]) && !HoldsEvents(name)
    ensures Rehomed(s, s', t, name)
    ensures Moved(s, s', OffBoth(s.tcb[t], t) + [ListOp(name, Add(t))])
  {
    hide Store.Ok, Ring.InsertEnd, Lose, Moved;
    s' := Detach(s, t);
    ghost var s1 := s';
    s' := LinkEnd(s', name, t);
    MovedThen(s, s1, s', OffBoth(s.tcb[t], t), [ListOp(name, Add(t))]);
  }

  /** From its state list to the end of another one, with the TCB changed to `b` between. */
  method Requeue(s: Store, t: Task, b: Tcb, name: ListName) returns (s': Store)
    requires s.Ok() && t in s.tcb && Placed(s.tcb[t]) && !HoldsEvents(name)
    requires b.stateIn == None && b.eventIn == s.tcb[t].eventIn
    ensures s'.Ok() && s'.tcb == s.tcb[t := b.(stateIn := Some(name))]
    ensures forall other :: other != name && s.tcb[t].stateIn != Some(other) ==> s'.At(other) == s.At(other)
    ensures s.tcb[t].stateIn != Some(name) ==>
              s.At(name).Valid() && s'.At(name) == s.At(name).InsertEnd(t)
    ensures Moved(s, s', Off(s.tcb[t].stateIn, t) + [ListOp(name, Add(t))])
  {
    hide Store.Ok, Ring.InsertEnd, Ring.Remove, Moved;
    var s1 := Unlink(s, false, t);
    UpdateOk(s1, t, b);
    var s2 := Store(s1.lists, s1.tcb[t := b]);
    s' := LinkEnd(s2, name, t);
    MovedSame(s, s1, s2, Off(s.tcb[t].stateIn, t));
    MovedThen(s, s2, s', Off(s.tcb[t].stateIn, t), [ListOp(name, Add(t))]);
  }

  /** The TCBs do not matter to what happens to the lists. */
  lemma MovedSame(s: Store, s1: Store, s2: Store, ops: seq<ListOp>)
    requires Moved(s, s1, ops) && s2.lists == s1.lists
    ensures Moved(s, s2, ops)
  {
    forall name ensures MovedAt(s, s2, ops, name) {
      assert MovedAt(s, s1, ops, name);
    }
  }

  /** Off both lists, and out of the system. */
  method Discard(s: Store, t: Task) returns (s': Store)
    requires s.Ok() && t in s.tcb && Placed(s.tcb[t])
    ensures s'.Ok() && s'.tcb == s.tcb - {t}
    ensures forall other :: s'.At(other).items == Lose(s.At(other).items, t)
    ensures Moved(s, s', OffBoth(s.tcb[t], t))
  {
    hide Lose, Moved;
    var s1 := Detach(s, t);
    s' := Store(s1.lists, s1.tcb - {t});
    MovedSame(s, s1, s', OffBoth(s.tcb[t], t));
    forall name ensures s'.ListOk(name) {
      assert s1.ListOk(name);
      forall u ensures u in s'.At(name).items <==> s'.On(u, name) {
        assert u in s1.At(name).items <==> s1.On(u, name);
      }
    }
  }

  /** A new task, on no list yet. */
  lemma NewTaskOk(s: Store, t: Task, b: Tcb)
    requires s.Ok() && t !in s.tcb && b.stateIn == None && b.eventIn == None
    ensures Store(s.lists, s.tcb[t := b]).Ok()
  {
    var s' := Store(s.lists, s.tcb[t := b]);
    forall name ensures s'.ListOk(name) {
      assert s.ListOk(name);
      forall u ensures u in s'.At(name).items <==> s'.On(u, name) {
        assert u in s.At(name).items <==> s.On(u, name);
      }
    }
  }

  /** The effect of a sorted insertion after removal from the old state list. */
  ghost predicate Resorted(s: Store, s': Store, t: Task, name: ListName, v: nat) {
    && s'.Ok() && t in s.tcb
    && s'.tcb == s.tcb[t := s.tcb[t].(stateIn := Some(name), stateValue := v)]
    && (forall other :: other != name && s.tcb[t].stateIn != Some(other) ==>
         s'.At(other) == s.At(other))
    && (SortedByTime(s.At(name).items, s.tcb) ==> SortedByTime(s'.At(name).items, s'.tcb))
  }

  /** From its state list to the place that its new item value gives it on another one. */
  method Resort(s: Store, t: Task, name: ListName, v: nat) returns (s': Store)
    requires s.Ok() && t in s.tcb && Placed(s.tcb[t]) && !HoldsEvents(name)
    requires s.tcb[t].stateIn != Some(name)
    ensures Resorted(s, s', t, name, v) && forall u <- s.At(name).items :: u in s.tcb
    ensures Moved(s, s', Off(s.tcb[t].stateIn, t)
                         + [ListOp(name, Put(SortPosition(s.At(name).items, s.tcb, false, v), t))])
  {
    hide Store.Ok, Ring.Remove, Ring.Insert, SortPosition, Moved;
    var s1 := Unlink(s, false, t);
    var b := s1.tcb[t].(stateValue := v);
    UpdateOk(s1, t, b);
    var s2 := Store(s1.lists, s1.tcb[t := b]);
    NotWaiting(s, t, name);
    if SortedByTime(s.At(name).items, s.tcb) {
      SortedSame(s.At(name).items, s.tcb, s2.tcb);
    }
    s' := LinkSorted(s2, name, t);
    SamePosition(s.At(name).items, s.tcb, s2.tcb, v);
    MovedSame(s, s1, s2, Off(s.tcb[t].stateIn, t));
    MovedThen(s, s2, s', Off(s.tcb[t].stateIn, t),
              [ListOp(name, Put(SortPosition(s.At(name).items, s.tcb, false, v), t))]);
  }

  lemma SamePosition(items: seq<Task>, tcb: map<Task, Tcb>, tcb': map<Task, Tcb>, v: nat)
    requires forall u <- items :: u in tcb' && u in tcb && tcb'[u].stateValue == tcb[u].stateValue
    ensures SortPosition(items, tcb, false, v) == SortPosition(items, tcb', false, v)
  {
    hide SortPosition;
  }

  lemma SortedWithout(items: seq<Task>, tcb: map<Task, Tcb>, t: Task)
    requires SortedByTime(items, tcb) && t in items
    ensures SortedByTime(Without(items, t), tcb)
  {
    var w, p := Without(items, t), Position(items, t);
    forall k | 0 <= k < |w| ensures w[k] == items[if k < p then k else k + 1] {
      WithoutAt(items, t, k);
    }
  }

  lemma SortedInsert(items: seq<Task>, tcb: map<Task, Tcb>, t: Task)
    requires SortedByTime(items, tcb) && t in tcb
    ensures var p := SortPosition(items, tcb, false, tcb[t].stateValue);
            SortedByTime(items[..p] + [t] + items[p..], tcb)
  {
    var v := tcb[t].stateValue;
    var p := SortPosition(items, tcb, false, v);
    var w := items[..p] + [t] + items[p..];
    InsertMembers(items, p, t);
    forall i, j | 0 <= i < j < |w| ensures tcb[w[i]].stateValue <= tcb[w[j]].stateValue {
      assert i < p ==> w[i] == items[i] && tcb[items[i]].Key(false) <= v;
      assert p < i ==> w[i] == items[i - 1];
      assert j < p ==> w[j] == items[j];
      assert p < j ==> w[j] == items[j - 1];
      if i <= p < j {
        assert v < tcb[items[p]].Key(false);
        assert tcb[items[p]].stateValue <= tcb[items[j - 1]].stateValue;
      }
    }
  }

  // ------------------------------------------------------------- the lists partition the tasks

  ghost function TotalLength(s: Store, names: seq<ListName>): nat {
    if names == [] then 0 else |s.At(names[0]).items| + TotalLength(s, names[1..])
  }

  ghost function TasksOn(s: Store, names: seq<ListName>): set<Task> {
    set t | t in s.tcb && s.tcb[t].stateIn.Some? && s.tcb[t].stateIn.value in names
  }

  lemma OneListCount(s: Store, n: ListName)
    requires s.Ok() && !HoldsEvents(n)
    ensures |s.At(n).items| == |TasksOn(s, [n])|
  {
    assert s.ListOk(n);
    var items := s.At(n).items;
    SetSize(items);
    forall t ensures t in items <==> t in TasksOn(s, [n]) {
      assert t in items <==> s.On(t, n);
    }
    assert SetOf(items) == TasksOn(s, [n]);
  }

  /** The lengths of any different state lists add up to the number of tasks on them. */
  lemma {:induction false} ListsCount(s: Store, names: seq<ListName>)
    requires s.Ok() && Distinct(names) && forall n <- names :: !HoldsEvents(n)
    ensures TotalLength(s, names) == |TasksOn(s, names)|
  {
    if names != [] {
      var n, rest := names[0], names[1..];
      DistinctPairs(names);
      DistinctPairs(rest);
      ListsCount(s, rest);
      OneListCount(s, n);
      TasksOnSplit(s, n, rest);
      assert [n] + rest == names;
    }
  }

  lemma TasksOnSplit(s: Store, n: ListName, rest: seq<ListName>)
    requires n !in rest
    ensures |TasksOn(s, [n] + rest)| == |TasksOn(s, [n])| + |TasksOn(s, rest)|
  {
    assert TasksOn(s, [n] + rest) == TasksOn(s, [n]) + TasksOn(s, rest);
    assert TasksOn(s, [n]) * TasksOn(s, rest) == {};
  }
}
