/** The kernel's circular doubly linked lists, on the heap (lib/FreeRTOS/list.c). */
module IntrusiveList {
  import opened Rings
  import opened Words

  class ListItem {
    var value: nat          // xItemValue
    var next: ListItem?     // pxNext
    var prev: ListItem?     // pxPrevious
    var container: List?    // pxContainer

    // vListInitialiseItem
    constructor (value: nat)
      ensures container == null && this.value == value
    {
      this.value := value;
      next, prev, container := null, null, null;
    }
  }

  /** Node `i` of the circle that starts at the end marker. */
  function Node(end: ListItem, items: seq<ListItem>, i: int): ListItem
    requires -1 <= i <= |items|
  {
    if 0 <= i < |items| then items[i] else end
  }

  /** The end marker and the items form one circle, linked in both directions. */
  ghost predicate Linked(end: ListItem, items: seq<ListItem>)
    reads end`next, end`prev, items`next, items`prev
  {
    && end.next == Node(end, items, 0)
    && end.prev == Node(end, items, |items| - 1)
    && (forall i {:trigger items[i].next} :: 0 <= i < |items| ==>
         items[i].next == Node(end, items, i + 1))
    && (forall i {:trigger items[i].prev} :: 0 <= i < |items| ==>
         items[i].prev == Node(end, items, i - 1))
  }

  /** The circle of `items` as it stands once `item` hangs between its nodes `p - 1` and `p`. */
  ghost predicate Spliced(end: ListItem, items: seq<ListItem>, p: nat, item: ListItem)
    requires p <= |items|
    reads end`next, end`prev, items`next, items`prev, item`next, item`prev
  {
    && item.next == Node(end, items, p) && item.prev == Node(end, items, p - 1)
    && end.next == (if p == 0 then item else Node(end, items, 0))
    && end.prev == (if p == |items| then item else Node(end, items, |items| - 1))
    && (forall i {:trigger items[i].next} :: 0 <= i < |items| ==>
         items[i].next == if i == p - 1 then item else Node(end, items, i + 1))
    && (forall i {:trigger items[i].prev} :: 0 <= i < |items| ==>
         items[i].prev == if i == p then item else Node(end, items, i - 1))
  }

  /** The four pointer writes of an insertion. */
  method Splice(end: ListItem, ghost items: seq<ListItem>, ghost p: nat,
                before: ListItem, item: ListItem, after: ListItem)
    requires p <= |items| && Linked(end, items) && Distinct(items)
    requires end !in items && item !in items && item != end
    requires before == Node(end, items, p - 1) && after == Node(end, items, p)
    modifies before`next, after`prev, item`next, item`prev
    ensures Spliced(end, items, p, item)
  {
    if p > 0 { DistinctAt(items, p - 1); }
    if p < |items| { DistinctAt(items, p); }
    item.next := after;
    item.prev := before;
    before.next := item;
    after.prev := item;
  }

  lemma SplicedIsLinked(end: ListItem, s: seq<ListItem>, p: nat, item: ListItem)
    requires p <= |s| && Spliced(end, s, p, item)
    ensures Linked(end, s[..p] + [item] + s[p..])
  {
    var t := s[..p] + [item] + s[p..];
    forall i | 0 <= i < |t|
      ensures t[i].next == Node(end, t, i + 1) && t[i].prev == Node(end, t, i - 1)
    {
      if i < p {
        assert t[i] == s[i];
      } else if p < i {
        assert t[i] == s[i - 1];
      }
    }
  }

  /** The circle of `items` as it stands once its neighbours pass by node `p`. */
  ghost predicate Bypassed(end: ListItem, items: seq<ListItem>, p: nat)
    requires p < |items|
    reads end`next, end`prev, items`next, items`prev
  {
    BypassedForth(end, items, p) && BypassedBack(end, items, p)
  }

  ghost predicate BypassedForth(end: ListItem, items: seq<ListItem>, p: nat)
    requires p < |items|
    reads end`next, items`next
  {
    && end.next == Node(end, items, if p == 0 then 1 else 0)
    && (forall i {:trigger items[i].next} :: 0 <= i < |items| && i != p ==>
         items[i].next == Node(end, items, if i == p - 1 then p + 1 else i + 1))
  }

  ghost predicate BypassedBack(end: ListItem, items: seq<ListItem>, p: nat)
    requires p < |items|
    reads end`prev, items`prev
  {
    && end.prev == Node(end, items, if p == |items| - 1 then p - 1 else |items| - 1)
    && (forall i {:trigger items[i].prev} :: 0 <= i < |items| && i != p ==>
         items[i].prev == Node(end, items, if i == p + 1 then p - 1 else i - 1))
  }

  lemma BypassedIsLinked(end: ListItem, s: seq<ListItem>, p: nat)
    requires p < |s| && Bypassed(end, s, p)
    ensures Linked(end, s[..p] + s[p + 1..])
  {
    hide Bypassed, Node;
    var t := s[..p] + s[p + 1..];
    forall i | 0 <= i < |t|
      ensures t[i].next == Node(end, t, i + 1) && t[i].prev == Node(end, t, i - 1)
    {
      BypassedAt(end, s, p, i);
    }
    BypassedEnds(end, s, p);
  }

  lemma BypassedEnds(end: ListItem, s: seq<ListItem>, p: nat)
    requires p < |s| && Bypassed(end, s, p)
    ensures var t := s[..p] + s[p + 1..];
            end.next == Node(end, t, 0) && end.prev == Node(end, t, |t| - 1)
  {
    var t := s[..p] + s[p + 1..];
    CutNode(end, s, p, 0);
    CutNode(end, s, p, |t| - 1);
  }

  lemma BypassedAt(end: ListItem, s: seq<ListItem>, p: nat, i: nat)
    requires p < |s| && Bypassed(end, s, p) && i < |s| - 1
    ensures var t := s[..p] + s[p + 1..];
            t[i].next == Node(end, t, i + 1) && t[i].prev == Node(end, t, i - 1)
  {
    CutNode(end, s, p, i - 1);
    CutNode(end, s, p, i);
    CutNode(end, s, p, i + 1);
  }

  lemma CutNode(end: ListItem, s: seq<ListItem>, p: nat, i: int)
    requires p < |s| && -1 <= i < |s|
    ensures Node(end, s[..p] + s[p + 1..], i) == Node(end, s, if i < p then i else i + 1)
  {
  }

  ghost function Values(items: seq<ListItem>): (values: seq<int>)
    reads items`value
    ensures |values| == |items|
    ensures forall k {:trigger items[k]} {:trigger values[k]} :: 0 <= k < |items| ==> values[k] == items[k].value
  {
    if items == [] then [] else [items[0].value] + Values(items[1..])
  }

  /** Where vListInsert puts a value: in front of the first larger one. */
  ghost function InsertPosition(items: seq<ListItem>, v: nat): (i: nat)
    reads items`value
    ensures i <= |items|
    ensures forall k :: 0 <= k < i ==> items[k].value <= v
    ensures i < |items| ==> v < items[i].value
  {
    InFrontOfLarger(Values(items), v)
  }

  ghost predicate Sorted(items: seq<ListItem>)
    reads items`value
  {
    forall i, j :: 0 <= i < j < |items| ==> items[i].value <= items[j].value
  }

  /** These items, and their values, are those of `list`. */
  ghost predicate Owned(items: seq<ListItem>, list: List)
    reads items`container, items`value
  {
    forall i {:trigger items[i].container} {:trigger items[i].value} :: 0 <= i < |items| ==>
      items[i].container == list && items[i].value <= MAX_DELAY
  }

  lemma SplicedIsOwned(list: List, s: seq<ListItem>, p: nat, item: ListItem)
    requires p <= |s| && Owned(s, list) && item.container == list && item.value <= MAX_DELAY
    ensures Owned(s[..p] + [item] + s[p..], list)
  {
  }

  class List {
    var count: nat           // uxNumberOfItems
    var index: ListItem      // pxIndex
    const end: ListItem      // xListEnd
    ghost var model: Ring<ListItem>

    ghost predicate Valid()
      reads this, end, model.items
    {
      Represents(model)
    }

    ghost predicate Represents(m: Ring<ListItem>)
      reads this`count, this`index, end`value, end`container, end`next, end`prev
      reads m.items`container, m.items`value, m.items`next, m.items`prev
    {
      Records(m) && Linked(end, m.items)
    }

    /** Everything but the links. */
    ghost predicate Records(m: Ring<ListItem>)
      reads this`count, this`index, end`value, end`container, m.items`container, m.items`value
    {
      && m.Valid() && count == |m.items|
      && end !in m.items && end.value == MAX_DELAY && end.container == null
      && index == Node(end, m.items, m.index - 1)
      && Owned(m.items, this)
    }

    lemma SplicedRepresents(m: Ring<ListItem>, p: nat, item: ListItem)
      requires m.Valid() && p <= |m.items| && count == |m.items| + 1
      requires end !in m.items && item !in m.items && item != end
      requires end.value == MAX_DELAY && end.container == null
      requires index == Node(end, m.items, m.index - 1)
      requires Spliced(end, m.items, p, item)
      requires Owned(m.items, this) && item.container == this && item.value <= MAX_DELAY
      ensures Represents(m.Insert(p, item))
    {
      SplicedIsLinked(end, m.items, p, item);
      SplicedIsOwned(this, m.items, p, item);
      InsertDistinct(m.items, p, item);
    }

    lemma BypassedRepresents(m: Ring<ListItem>, p: nat, item: ListItem)
      requires m.Valid() && p < |m.items| && m.items[p] == item
      requires count == |m.items| - 1 && end !in m.items
      requires end.value == MAX_DELAY && end.container == null
      requires index == Node(end, m.items, if m.index == p + 1 then p - 1 else m.index - 1)
      requires Bypassed(end, m.items, p)
      requires forall i :: 0 <= i < |m.items| && i != p ==>
                 m.items[i].container == this && m.items[i].value <= MAX_DELAY
      ensures Represents(m.Remove(item))
    {
      PositionUnique(m.items, p);
      BypassedIsLinked(end, m.items, p);
      WithoutMembers(m.items, item);
    }

    /** The end of a removal: the index steps back, the item forgets its list. */
    method Forget(item: ListItem, ghost p: nat)
      requires Records(model) && p < |model.items| && model.items[p] == item
      requires Bypassed(end, model.items, p) && item.prev == Node(end, model.items, p - 1)
      modifies this, item`container
      ensures item.container == null
      ensures Valid() && model == old(model).Remove(item)
    {
      ghost var m := model;
      DistinctAt(m.items, p);
      index := if index == item then item.prev else index;
      item.container := null;
      count := count - 1;
      model := m.Remove(item);
      BypassedRepresents(m, p, item);
    }

    /** The two pointer writes of a removal. */
    method Bypass(item: ListItem, ghost p: nat)
      requires Valid() && p < |model.items| && model.items[p] == item
      modifies item.next`prev, item.prev`next
      ensures Records(model) && Bypassed(end, model.items, p)
      ensures item.prev == Node(end, model.items, p - 1)
    {
      ghost var items := model.items;
      assert Distinct(items) && end !in items && Linked(end, items);
      hide Distinct;
      DistinctAt(items, p);
      if p > 0 { DistinctAt(items, p - 1); }
      if p + 1 < |items| { DistinctAt(items, p + 1); }
      PassBack(item, items, p);
      PassForth(item, items, p);
    }

    method PassBack(item: ListItem, ghost items: seq<ListItem>, ghost p: nat)
      requires Linked(end, items) && p < |items| && items[p] == item && end !in items
      requires forall i :: 0 <= i < |items| && i != p ==> items[i] != item
      requires p + 1 < |items| ==> forall i :: 0 <= i < |items| && i != p + 1 ==> items[i] != items[p + 1]
      modifies item.next`prev
      ensures BypassedBack(end, items, p) && item.prev == Node(end, items, p - 1)
    {
      item.next.prev := item.prev;
    }

    method PassForth(item: ListItem, ghost items: seq<ListItem>, ghost p: nat)
      requires p < |items| && items[p] == item && end !in items
      requires end.next == Node(end, items, 0) && item.prev == Node(end, items, p - 1)
      requires forall i {:trigger items[i].next} :: 0 <= i < |items| ==> items[i].next == Node(end, items, i + 1)
      requires forall i :: 0 <= i < |items| && i != p ==> items[i] != item
      requires p > 0 ==> forall i :: 0 <= i < |items| && i != p - 1 ==> items[i] != items[p - 1]
      modifies item.prev`next
      ensures BypassedForth(end, items, p)
    {
      item.prev.next := item.next;
    }

    // uxListRemove, on the list that the item names
    method Unhook(item: ListItem) returns (left: nat)
      requires Valid() && item in model.items
      modifies this, end`next, end`prev, model.items`next, model.items`prev, item`container
      ensures item.container == null
      ensures Valid() && model == old(model).Remove(item) && left == |model.items|
      ensures forall x :: x in model.items <==> x in old(model.items) && x != item
    {
      WithoutMembers(model.items, item);
      ghost var p: nat :| p < |model.items| && model.items[p] == item;
      Bypass(item, p);
      Forget(item, p);
      left := count;
    }

    // vListInitialise
    constructor ()
      ensures Valid() && model == Ring([], 0) && fresh(end)
    {
      var marker := new ListItem(MAX_DELAY);
      end, index, count := marker, marker, 0;
      model := Ring([], 0);
      new;
      end.next, end.prev := end, end;
    }

    /** What both insertions do once they know the place: link, record the list, count. */
    method Attach(before: ListItem, item: ListItem, after: ListItem, ghost p: nat)
      requires Valid() && item.container == null && item != end && item.value <= MAX_DELAY
      requires p <= |model.items|
      requires before == Node(end, model.items, p - 1) && after == Node(end, model.items, p)
      modifies this, before`next, after`prev, item`next, item`prev, item`container
      ensures Valid() && item.container == this
      ensures model == old(model).Insert(p, item)
    {
      ghost var m := model;
      assert item !in m.items;
      Splice(end, m.items, p, before, item, after);
      item.container := this;
      count := count + 1;
      model := m.Insert(p, item);
      SplicedRepresents(m, p, item);
    }

    // vListInsertEnd
    method InsertEnd(item: ListItem)
      requires Valid() && item.container == null && item != end && item.value <= MAX_DELAY
      modifies this, end`next, end`prev, model.items`next, model.items`prev
      modifies item`next, item`prev, item`container
      ensures Valid() && item.container == this
      ensures model == old(model).InsertEnd(item)
    {
      ghost var p := if model.index == 0 then |model.items| else model.index - 1;
      InsertEndAt(model, p, item);
      Attach(index.prev, item, index, p);
    }

    // vListInsert
    method Insert(item: ListItem)
      requires Valid() && item.container == null && item != end && item.value <= MAX_DELAY
      modifies this, end`next, end`prev, model.items`next, model.items`prev
      modifies item`next, item`prev, item`container
      ensures Valid() && item.container == this
      ensures model == old(model).Insert(old(InsertPosition(model.items, item.value)), item)
    {
      var before, p := FindPosition(item.value);
      Attach(before, item, before.next, p);
    }

    /** The search of vListInsert.  A value equal to the end marker's would never stop the
        loop, so it goes to the back without a search. */
    method FindPosition(v: nat) returns (before: ListItem, ghost p: nat)
      requires Valid() && v <= MAX_DELAY
      ensures p == old(InsertPosition(model.items, v)) <= |model.items|
      ensures before == Node(end, model.items, p - 1) && before.next == Node(end, model.items, p)
    {
      hide InsertPosition, Values;
      if v == MAX_DELAY {
        before, p := end.prev, |model.items|;
      } else {
        before, p := end, 0;
        while before.next.value <= v
          invariant p <= |model.items| && before == Node(end, model.items, p - 1)
          invariant before.next == Node(end, model.items, p)
          invariant forall k :: 0 <= k < p ==> model.items[k].value <= v
          decreases |model.items| - p
        {
          before, p := before.next, p + 1;
        }
      }
      InsertPositionIs(model.items, v, p);
    }

    // listGET_OWNER_OF_NEXT_ENTRY
    method NextEntry() returns (item: ListItem)
      requires Valid() && model.items != []
      modifies this
      ensures Valid() && model == old(model).Next()
      ensures item == old(model).Turn()[0] && index == item
    {
      index := index.next;
      if index == end {
        index := index.next;
      }
      model := model.Next();
      item := index;
    }
  }

  lemma InsertPositionIs(items: seq<ListItem>, v: nat, p: nat)
    requires p <= |items|
    requires forall k :: 0 <= k < p ==> items[k].value <= v
    requires p < |items| ==> v < items[p].value
    ensures InsertPosition(items, v) == p
  {
  }

  /** Insertion goes behind every equal value, and keeps a sorted list sorted. */
  lemma InsertKeepsSorted(items: seq<ListItem>, item: ListItem)
    requires Sorted(items)
    ensures var p := InsertPosition(items, item.value);
            && Sorted(items[..p] + [item] + items[p..])
            && forall k :: 0 <= k < |items| ==> (k < p <==> items[k].value <= item.value)
  {
    var p := InsertPosition(items, item.value);
    forall k | 0 <= k < |items| ensures k < p <==> items[k].value <= item.value {
      if p < k { assert items[p].value <= items[k].value; }
    }
    SortedAround(items, item, p);
  }

  lemma SortedAround(items: seq<ListItem>, item: ListItem, p: nat)
    requires Sorted(items) && p <= |items|
    requires forall k :: 0 <= k < |items| ==> (k < p <==> items[k].value <= item.value)
    ensures Sorted(items[..p] + [item] + items[p..])
  {
    var t := items[..p] + [item] + items[p..];
    forall i, j | 0 <= i < j < |t| ensures t[i].value <= t[j].value {
      if i < p {
        assert t[i] == items[i];
      }
      if p < j {
        assert t[j] == items[j - 1];
        if p < i {
          assert t[i] == items[i - 1];
        }
      }
    }
  }

  /** The lists and the items of a program.  Every list is well formed, no node belongs to two
      lists, and an item names a list as its container if and only if it is in that list. */
  class Pool {
    ghost var lists: set<List>
    ghost var items: set<ListItem>

    ghost predicate Valid()
      reads this, lists, set l <- lists :: l.end, items
    {
      && (forall l <- lists :: Kept(l))
      && (forall l <- lists, k <- lists :: l.end == k.end ==> l == k)
      && (forall x <- items :: x.value <= MAX_DELAY)
      && (forall x <- items, l <- lists :: x.container == l <==> x in l.model.items)
      && (forall x <- items :: x.container == null || x.container in lists)
    }

    ghost predicate Kept(l: List)
      reads this, l, l.end, items
    {
      l.end !in items && (forall x <- l.model.items :: x in items) && l.Valid()
    }

    twostate lemma OtherKept(l: List)
      requires old(Kept(l)) && unchanged(this) && unchanged(l) && unchanged(l.end)
      requires unchanged(l.model.items)
      ensures Kept(l)
    {
      hide List.Valid;
    }

    /** The list that `item` has joined or left. */
    twostate function Host(item: ListItem): (list: List?)
      ensures item.container == null || old(item.container) == null ==>
                (item.container == null || item.container == list)
                && (old(item.container) == null || old(item.container) == list)
      reads item
    {
      if item.container != null then item.container else old(item.container)
    }

    /** Joining or leaving a list changes that list and nothing of the others. */
    twostate lemma StillValid(item: ListItem)
      requires old(Valid()) && unchanged(this) && item in items
      requires item.container == null || old(item.container) == null
      requires Host(item) != null && Host(item) in lists && Host(item).Valid()
      requires forall l <- lists :: l != Host(item) ==> unchanged(l) && unchanged(l.end)
      requires forall x <- items :: x.value == old(x.value)
      requires forall x <- items :: x != item ==> x.container == old(x.container)
      requires forall x <- items :: x != item && old(x.container) != Host(item) ==> unchanged(x)
      requires forall x <- Host(item).model.items :: x in items
      requires forall x <- items :: x.container == Host(item) <==> x in Host(item).model.items
      ensures Valid()
    {
      hide List.Valid;
      forall l | l in lists ensures Kept(l) {
        assert old(Kept(l));
        if l != Host(item) {
          forall i | 0 <= i < |l.model.items| ensures unchanged(l.model.items[i]) {
            assert l.model.items[i] in l.model.items;
          }
          OtherKept(l);
        }
      }
    }

    constructor ()
      ensures Valid() && lists == {} && items == {}
    {
      lists, items := {}, {};
    }

    // vListInitialise
    method NewList() returns (list: List)
      requires Valid()
      modifies this
      ensures Valid() && fresh(list) && lists == old(lists) + {list} && items == old(items)
      ensures list.model == Ring([], 0)
    {
      list := new List();
      lists := lists + {list};
    }

    // vListInitialiseItem
    method NewItem(value: nat) returns (item: ListItem)
      requires Valid() && value <= MAX_DELAY
      modifies this
      ensures Valid() && fresh(item) && items == old(items) + {item} && lists == old(lists)
      ensures item.container == null && item.value == value
    {
      item := new ListItem(value);
      items := items + {item};
    }

    // vListInsertEnd
    method InsertEnd(list: List, item: ListItem)
      requires Valid() && list in lists && item in items && item.container == null
      modifies list, list.end`next, list.end`prev, list.model.items`next, list.model.items`prev
      modifies item`next, item`prev, item`container
      ensures Valid() && item.container == list && list.model == old(list.model).InsertEnd(item)
      ensures forall l <- lists :: l != list ==> l.model == old(l.model)
    {
      hide List.Represents;
      list.InsertEnd(item);
      StillValid(item);
    }

    // vListInsert
    method Insert(list: List, item: ListItem)
      requires Valid() && list in lists && item in items && item.container == null
      modifies list, list.end`next, list.end`prev, list.model.items`next, list.model.items`prev
      modifies item`next, item`prev, item`container
      ensures Valid() && item.container == list
      ensures list.model == old(list.model).Insert(old(InsertPosition(list.model.items, item.value)), item)
      ensures forall l <- lists :: l != list ==> l.model == old(l.model)
    {
      hide List.Represents;
      list.Insert(item);
      StillValid(item);
    }

    // listSET_LIST_ITEM_VALUE, on an item in a list or in none
    method SetValue(item: ListItem, value: nat)
      requires Valid() && item in items && value <= MAX_DELAY
      modifies item`value
      ensures Valid() && item.value == value
      ensures forall l <- lists :: l.model == old(l.model)
    {
      hide Linked, Ring.Valid;
      item.value := value;
    }

    // uxListRemove: the item alone says which list it is in
    method Remove(item: ListItem) returns (left: nat)
      requires Valid() && item in items && item.container != null
      modifies item.container, item.container.end`next, item.container.end`prev
      modifies item.container.model.items`next, item.container.model.items`prev
      modifies item`container
      ensures Valid() && item.container == null
      ensures var list := old(item.container);
              list in lists && list.model == old(item.container.model).Remove(item) && left == |list.model.items|
      ensures forall l <- lists :: l != old(item.container) ==> l.model == old(l.model)
    {
      hide List.Represents;
      left := item.container.Unhook(item);
      StillValid(item);
    }

    // listGET_OWNER_OF_NEXT_ENTRY
    method NextEntry(list: List) returns (item: ListItem)
      requires Valid() && list in lists && list.model.items != []
      modifies list
      ensures Valid() && list.model == old(list.model).Next()
      ensures item == old(list.model).Turn()[0] && item in items && item.container == list
      ensures forall l <- lists :: l != list ==> l.model == old(l.model)
    {
      item := list.NextEntry();
    }
  }
}
