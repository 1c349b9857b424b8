/** The value of a kernel list (lib/FreeRTOS/list.c): its items in order from the end
    marker, and the position of the moving index `pxIndex`. */
module Rings {

  // portMAX_DELAY for 32-bit ticks, also the value stored in every end marker.
  const MAX_DELAY: nat := 0xFFFF_FFFF

  ghost function Slot<T>(s: seq<T>, i: nat): T
    requires i < |s|
  {
    s[i]
  }

  /** Stated over `Slot`, so that the verifier compares two elements only when asked to. */
  ghost predicate Distinct<T>(s: seq<T>) {
    forall i, j {:trigger Slot(s, i), Slot(s, j)} :: 0 <= i < j < |s| ==> Slot(s, i) != Slot(s, j)
  }

  lemma DistinctPairs<T>(s: seq<T>)
    ensures Distinct(s) <==> forall i, j :: 0 <= i < j < |s| ==> s[i] != s[j]
  {
    if Distinct(s) {
      forall i, j | 0 <= i < j < |s| ensures s[i] != s[j] {
        assert Slot(s, i) != Slot(s, j);
      }
    }
  }

  lemma DistinctAt<T>(s: seq<T>, i: nat)
    requires Distinct(s) && i < |s|
    ensures forall k :: 0 <= k < |s| && k != i ==> s[k] != s[i]
  {
    forall k | 0 <= k < |s| && k != i ensures s[k] != s[i] {
      assert Slot(s, k) == s[k] && Slot(s, i) == s[i];
    }
  }

  function Position<T(==)>(s: seq<T>, x: T): (i: nat)
    requires x in s
    ensures i < |s| && s[i] == x
  {
    FindFrom(s, x, 0)
  }

  function FindFrom<T(==)>(s: seq<T>, x: T, i: nat): (k: nat)
    requires exists j :: i <= j < |s| && s[j] == x
    ensures k < |s| && s[k] == x
    decreases |s| - i
  {
    if s[i] == x then i else FindFrom(s, x, i + 1)
  }

  lemma PositionUnique<T>(s: seq<T>, i: nat)
    requires Distinct(s) && i < |s|
    ensures Position(s, s[i]) == i
  {
    DistinctAt(s, i);
  }

  function Without<T(==)>(s: seq<T>, x: T): seq<T> {
    if x in s then s[..Position(s, x)] + s[Position(s, x) + 1..] else s
  }

  lemma WithoutAt<T>(s: seq<T>, x: T, k: nat)
    requires x in s && k < |s| - 1
    ensures |Without(s, x)| == |s| - 1
    ensures Without(s, x)[k] == s[if k < Position(s, x) then k else k + 1]
  {
  }

  lemma WithoutMembers<T>(s: seq<T>, x: T)
    requires Distinct(s)
    ensures Distinct(Without(s, x))
    ensures forall y :: y in Without(s, x) <==> y in s && y != x
    ensures x in s ==> |Without(s, x)| == |s| - 1
  {
    if x in s {
      var p, w := Position(s, x), Without(s, x);
      DistinctAt(s, p);
      forall y | y in w ensures y in s && y != x {
        WithoutAt(s, x, Position(w, y));
      }
      forall y | y in s && y != x ensures y in w {
        var q := Position(s, y);
        WithoutAt(s, x, if q < p then q else q - 1);
      }
      WithoutDistinct(s, x);
    }
  }

  lemma WithoutDistinct<T>(s: seq<T>, x: T)
    requires Distinct(s) && x in s
    ensures Distinct(Without(s, x))
  {
    var p, w := Position(s, x), Without(s, x);
    forall i, j | 0 <= i < j < |w| ensures Slot(w, i) != Slot(w, j) {
      DistinctAt(s, if i < p then i else i + 1);
    }
  }

  lemma InsertDistinct<T>(s: seq<T>, p: nat, x: T)
    requires Distinct(s) && p <= |s| && x !in s
    ensures Distinct(s[..p] + [x] + s[p..])
  {
    var w := s[..p] + [x] + s[p..];
    forall i, j | 0 <= i < j < |w| ensures Slot(w, i) != Slot(w, j) {
      if i != p {
        DistinctAt(s, if i < p then i else i - 1);
      }
    }
  }

  lemma InsertMembers<T>(s: seq<T>, p: nat, x: T)
    requires p <= |s|
    ensures forall y :: y in s[..p] + [x] + s[p..] <==> y in s || y == x
  {
    assert s == s[..p] + s[p..];
  }

  ghost function SetOf<T>(items: seq<T>): set<T> {
    set x | x in items
  }

  lemma SetSize<T>(items: seq<T>)
    requires Distinct(items)
    ensures |SetOf(items)| == |items|
  {
    if items != [] {
      DistinctAt(items, 0);
      DistinctPairs(items);
      DistinctPairs(items[1..]);
      SetSize(items[1..]);
      assert SetOf(items) == {items[0]} + SetOf(items[1..]);
    }
  }

  /** `index == 0` means that `pxIndex` rests on the end marker, `index == k > 0` that it
      rests on `items[k - 1]`. */
  datatype Ring<T(==)> = Ring(items: seq<T>, index: nat) {

    ghost predicate Valid() {
      index <= |items| && Distinct(items)
    }

    /** The order in which repeated advancing of the index visits the items. */
    function Turn(): seq<T>
      requires index <= |items|
    {
      items[index..] + items[..index]
    }

    /** Insertion in front of `items[i]`, the index staying on the node where it was. */
    function Insert(i: nat, x: T): Ring<T>
      requires i <= |items|
    {
      Ring(items[..i] + [x] + items[i..], if i < index then index + 1 else index)
    }

    /** vListInsertEnd: insertion in front of the indexed node. */
    function InsertEnd(x: T): Ring<T>
      requires Valid()
    {
      if index == 0 then Ring(items + [x], 0) else Insert(index - 1, x)
    }

    /** uxListRemove: an index resting on the removed item steps back. */
    function Remove(x: T): Ring<T>
      requires x in items
    {
      Ring(Without(items, x), if Position(items, x) < index then index - 1 else index)
    }

    /** listGET_OWNER_OF_NEXT_ENTRY: the index moves on, past the end marker. */
    function Next(): Ring<T>
      requires items != []
    {
      Ring(items, if index < |items| then index + 1 else 1)
    }
  }

  lemma {:induction false} RemoveTurn<T>(r: Ring<T>, x: T)
    requires r.Valid() && x in r.items
    ensures r.Remove(x).Valid()
    ensures r.Remove(x).Turn() == Without(r.Turn(), x)
  {
    WithoutMembers(r.items, x);
    TurnDistinct(r);
    var p := Position(r.items, x);
    var q := if p < r.index then |r.items| - r.index + p else p - r.index;
    assert r.Turn()[q] == x;
    PositionUnique(r.Turn(), q);
    if p < r.index {
      RemoveTurnBack(r.items, r.index, x, p, q);
    } else {
      RemoveTurnFront(r.items, r.index, x, p, q);
    }
  }

  lemma RemoveTurnBack<T>(s: seq<T>, i: nat, x: T, p: nat, q: nat)
    requires i <= |s| && x in s && p == Position(s, x) < i
    requires x in s[i..] + s[..i] && q == Position(s[i..] + s[..i], x) == |s| - i + p
    ensures Ring(s, i).Remove(x).Turn() == Without(s[i..] + s[..i], x)
  {
    hide Without, Ring.Turn;
    WithoutIs(s, x, p);
    assert Ring(s, i).Remove(x) == Ring(s[..p] + s[p + 1..], i - 1);
    TurnIs(s[..p] + s[p + 1..], i - 1);
    CutBack(s, i, p);
    WithoutIs(s[i..] + s[..i], x, q);
  }

  lemma RemoveTurnFront<T>(s: seq<T>, i: nat, x: T, p: nat, q: nat)
    requires i <= |s| && x in s && i <= p == Position(s, x)
    requires x in s[i..] + s[..i] && q == Position(s[i..] + s[..i], x) == p - i
    ensures Ring(s, i).Remove(x).Turn() == Without(s[i..] + s[..i], x)
  {
    hide Without, Ring.Turn;
    WithoutIs(s, x, p);
    assert Ring(s, i).Remove(x) == Ring(s[..p] + s[p + 1..], i);
    TurnIs(s[..p] + s[p + 1..], i);
    CutFront(s, i, p);
    WithoutIs(s[i..] + s[..i], x, q);
  }

  lemma TurnIs<T>(s: seq<T>, i: nat)
    requires i <= |s|
    ensures Ring(s, i).Turn() == s[i..] + s[..i]
  {
  }

  lemma WithoutIs<T>(s: seq<T>, x: T, p: nat)
    requires x in s && p == Position(s, x)
    ensures Without(s, x) == s[..p] + s[p + 1..]
  {
  }

  // Cutting element `p` out of a sequence rotated by `i` places.
  lemma CutBack<T>(s: seq<T>, i: nat, p: nat)
    requires p < i <= |s|
    ensures var w, t, q := s[..p] + s[p + 1..], s[i..] + s[..i], |s| - i + p;
            w[i - 1..] + w[..i - 1] == t[..q] + t[q + 1..]
  {
    var w, t, q := s[..p] + s[p + 1..], s[i..] + s[..i], |s| - i + p;
    var a, b, c := s[i..], s[..p], s[p + 1..i];
    assert w[i - 1..] == a;
    assert w[..i - 1] == b + c;
    assert t[..q] == a + b;
    assert t[q + 1..] == c;
    assert a + (b + c) == (a + b) + c;
  }

  lemma CutFront<T>(s: seq<T>, i: nat, p: nat)
    requires i <= p < |s|
    ensures var w, t, q := s[..p] + s[p + 1..], s[i..] + s[..i], p - i;
            w[i..] + w[..i] == t[..q] + t[q + 1..]
  {
    var w, t, q := s[..p] + s[p + 1..], s[i..] + s[..i], p - i;
    var a, b, c := s[i..p], s[p + 1..], s[..i];
    assert w[i..] == a + b;
    assert w[..i] == c;
    assert t[..q] == a;
    assert t[q + 1..] == b + c;
    assert (a + b) + c == a + (b + c);
  }

  lemma TurnDistinct<T>(r: Ring<T>)
    requires r.Valid()
    ensures Distinct(r.Turn())
    ensures |r.Turn()| == |r.items|
    ensures forall x :: x in r.Turn() <==> x in r.items
  {
    assert r.items == r.items[..r.index] + r.items[r.index..];
    DistinctPairs(r.items);
    DistinctPairs(r.Turn());
  }

  /** An item added at the end comes after every item but the one just selected. */
  lemma InsertEndTurn<T>(r: Ring<T>, x: T)
    requires r.Valid() && x !in r.items
    ensures r.InsertEnd(x).Valid()
    ensures r.index == 0 ==> r.InsertEnd(x).Turn() == r.Turn() + [x]
    ensures r.index > 0 ==>
      var n := |r.items|;
      r.InsertEnd(x).Turn() == r.Turn()[..n - 1] + [x] + [r.Turn()[n - 1]]
  {
    var p := if r.index == 0 then |r.items| else r.index - 1;
    InsertDistinct(r.items, p, x);
    InsertEndAt(r, p, x);
    if r.index > 0 {
      CutInsertion(r.items, r.index, x);
    }
  }

  lemma CutInsertion<T>(s: seq<T>, k: nat, x: T)
    requires 0 < k <= |s|
    ensures var w := s[..k - 1] + [x] + s[k - 1..];
            var t := s[k..] + s[..k];
            w[k + 1..] + w[..k + 1] == t[..|s| - 1] + [x] + [t[|s| - 1]]
  {
    var w := s[..k - 1] + [x] + s[k - 1..];
    assert w[k + 1..] == s[k..];
    assert w[..k + 1] == s[..k - 1] + [x] + [s[k - 1]];
  }

  lemma NextTurn<T>(r: Ring<T>)
    requires r.Valid() && r.items != []
    ensures r.Next().Valid()
    ensures r.Next().Turn() == r.Turn()[1..] + [r.Turn()[0]]
    ensures r.Next().items[r.Next().index - 1] == r.Turn()[0]
  {
  }

  lemma InsertEndAt<T>(r: Ring<T>, p: nat, x: T)
    requires r.Valid() && p == if r.index == 0 then |r.items| else r.index - 1
    ensures r.InsertEnd(x) == r.Insert(p, x)
  {
    if r.index == 0 {
      assert r.items + [x] == r.items[..p] + [x] + r.items[p..];
    }
  }

  // ---------------------------------------------------------------- fairness of the turn

  /** `Put` is the insertion of vListInsert, at a place found by value. */
  datatype Op<T> = Select | Add(x: T) | Drop(x: T) | Put(i: nat, x: T)

  ghost function Perform<T>(r: Ring<T>, op: Op<T>): (r': Ring<T>)
    requires r.Valid()
    ensures r'.Valid()
  {
    match op
    case Select => if r.items == [] then r else r.Next()
    case Add(x) => if x in r.items then r else InsertEndTurn(r, x); r.InsertEnd(x)
    case Drop(x) => if x in r.items then RemoveTurn(r, x); r.Remove(x) else r
    case Put(i, x) =>
      if i <= |r.items| && x !in r.items then InsertDistinct(r.items, i, x); r.Insert(i, x) else r
  }

  ghost function PerformAll<T>(r: Ring<T>, ops: seq<Op<T>>): (r': Ring<T>)
    requires r.Valid()
    ensures r'.Valid()
    decreases |ops|
  {
    if ops == [] then r else PerformAll(Perform(r, ops[0]), ops[1..])
  }

  ghost predicate SelectsNow<T>(r: Ring<T>, op: Op<T>, z: T)
    requires r.Valid()
  {
    op == Select && r.items != [] && r.Turn()[0] == z
  }

  /** How often a run selects `z`. */
  ghost function Picks<T>(r: Ring<T>, ops: seq<Op<T>>, z: T): nat
    requires r.Valid()
    decreases |ops|
  {
    if ops == [] then 0
    else (if SelectsNow(r, ops[0], z) then 1 else 0) + Picks(Perform(r, ops[0]), ops[1..], z)
  }

  /** `z` is in front of `y` in the turn. */
  ghost predicate Before<T>(r: Ring<T>, z: T, y: T)
    requires r.Valid()
  {
    exists i, j :: 0 <= i < j < |r.Turn()| && r.Turn()[i] == z && r.Turn()[j] == y
  }

  lemma BeforeTotal<T>(r: Ring<T>, z: T, y: T)
    requires r.Valid() && z in r.items && y in r.items && z != y
    ensures Before(r, z, y) <==> !Before(r, y, z)
  {
    TurnDistinct(r);
    var i, j := Position(r.Turn(), z), Position(r.Turn(), y);
    DistinctAt(r.Turn(), i);
    DistinctAt(r.Turn(), j);
  }

  /** One step that neither drops `y` or `z` nor selects `y` keeps `z` in front of `y`,
      unless it selects `z`, which sends it behind. */
  lemma StepOrder<T>(r: Ring<T>, op: Op<T>, y: T, z: T)
    requires r.Valid() && y in r.items && z in r.items && y != z
    requires op != Drop(y) && op != Drop(z) && !SelectsNow(r, op, y)
    ensures y in Perform(r, op).items && z in Perform(r, op).items
    ensures Before(Perform(r, op), z, y) <==> Before(r, z, y) && !SelectsNow(r, op, z)
    ensures SelectsNow(r, op, z) ==> Before(r, z, y)
  {
    var r' := Perform(r, op);
    TurnDistinct(r);
    TurnDistinct(r');
    BeforeTotal(r, z, y);
    BeforeTotal(r, y, z);
    var i, j := Position(r.Turn(), z), Position(r.Turn(), y);
    match op
    case Select => NextTurn(r); StepOrderSelect(r, y, z);
    case Add(x) =>
      if x !in r.items {
        InsertEndTurn(r, x);
        StepOrderAdd(r, x, y, z);
      }
    case Drop(x) =>
      if x in r.items {
        RemoveTurn(r, x);
        StepOrderDrop(r, x, y, z);
      }
    case Put(i, x) =>
      if i <= |r.items| && x !in r.items {
        PutBack(r, i, x);
        InsertMembers(r.items, i, x);
        StepOrderDrop(r', x, y, z);
      }
  }

  /** Removing an item that has just been put in. */
  lemma PutBack<T>(r: Ring<T>, i: nat, x: T)
    requires r.Valid() && i <= |r.items| && x !in r.items
    ensures r.Insert(i, x).Valid() && x in r.Insert(i, x).items && r.Insert(i, x).Remove(x) == r
  {
    InsertDistinct(r.items, i, x);
    var w := r.items[..i] + [x] + r.items[i..];
    assert w[i] == x;
    PositionUnique(w, i);
    assert w[..i] + w[i + 1..] == r.items;
  }

  lemma {:induction false} PerformSplit<T>(r: Ring<T>, a: seq<Op<T>>, b: seq<Op<T>>)
    requires r.Valid()
    ensures PerformAll(r, a + b) == PerformAll(PerformAll(r, a), b)
    decreases |a|
  {
    if a == [] {
      assert a + b == b;
    } else {
      assert (a + b)[1..] == a[1..] + b;
      PerformSplit(Perform(r, a[0]), a[1..], b);
    }
  }

  ghost function Adds<T>(xs: seq<T>): seq<Op<T>> {
    seq(|xs|, i requires 0 <= i < |xs| => Add(xs[i]))
  }

  lemma AddMembers<T>(r: Ring<T>, x: T)
    requires r.Valid()
    ensures forall y :: y in r.InsertEnd(x).items <==> y in r.items || y == x
  {
    var p := if r.index == 0 then |r.items| else r.index - 1;
    InsertEndAt(r, p, x);
    InsertMembers(r.items, p, x);
  }

  /** Items added one after the other come in this order after every item but the one that
      was selected last. */
  lemma {:induction false} AddsTurn<T>(r: Ring<T>, xs: seq<T>)
    requires r.Valid() && Distinct(xs) && forall x <- xs :: x !in r.items
    ensures var r', n := PerformAll(r, Adds(xs)), |r.items|;
            if r.index == 0 then r'.index == 0 && r'.Turn() == r.Turn() + xs
            else r'.index > 0 && r'.Turn() == r.Turn()[..n - 1] + xs + [r.Turn()[n - 1]]
    decreases |xs|
  {
    TurnDistinct(r);
    if xs == [] {
      assert Adds(xs) == [];
    } else {
      hide Ring.Turn, Ring.InsertEnd, PerformAll, Adds, Distinct;
      var x, rest, q := xs[0], xs[1..], r.InsertEnd(xs[0]);
      AddsFirst(r, xs);
      InsertEndTurn(r, x);
      TurnDistinct(q);
      AddsTurn(q, rest);
      assert [x] + rest == xs;
      if r.index > 0 {
        AddsJoin(r.Turn(), x, rest, |r.items|);
      } else {
        assert r.Turn() + [x] + rest == r.Turn() + xs;
      }
    }
  }

  lemma AddsFirst<T>(r: Ring<T>, xs: seq<T>)
    requires r.Valid() && Distinct(xs) && (forall x <- xs :: x !in r.items) && xs != []
    ensures var q := r.InsertEnd(xs[0]);
            && q.Valid() && Distinct(xs[1..]) && (forall x <- xs[1..] :: x !in q.items)
            && PerformAll(r, Adds(xs)) == PerformAll(q, Adds(xs[1..]))
            && (r.index == 0 ==> q.index == 0) && (r.index > 0 ==> q.index > 0)
  {
    InsertEndTurn(r, xs[0]);
    AddMembers(r, xs[0]);
    DistinctPairs(xs);
    DistinctPairs(xs[1..]);
    assert Adds(xs)[1..] == Adds(xs[1..]) && Adds(xs)[0] == Add(xs[0]);
  }

  lemma AddsJoin<T>(t: seq<T>, x: T, rest: seq<T>, n: nat)
    requires 0 < n == |t|
    ensures var t' := t[..n - 1] + [x] + [t[n - 1]];
            t'[..n] + rest + [t'[n]] == t[..n - 1] + ([x] + rest) + [t[n - 1]]
  {
    var t' := t[..n - 1] + [x] + [t[n - 1]];
    assert t'[..n] == t[..n - 1] + [x] && t'[n] == t[n - 1];
    assert t[..n - 1] + [x] + rest == t[..n - 1] + ([x] + rest);
  }

  lemma OrderByPosition<T>(r: Ring<T>, i: nat, j: nat)
    requires r.Valid() && i < |r.Turn()| && j < |r.Turn()| && i != j
    ensures r.Turn()[i] in r.items && r.Turn()[j] in r.items && r.Turn()[i] != r.Turn()[j]
    ensures Before(r, r.Turn()[i], r.Turn()[j]) <==> i < j
  {
    TurnDistinct(r);
    DistinctAt(r.Turn(), i);
    BeforeTotal(r, r.Turn()[i], r.Turn()[j]);
  }

  lemma StepOrderSelect<T>(r: Ring<T>, y: T, z: T)
    requires r.Valid() && y in r.items && z in r.items && y != z && r.Turn()[0] != y
    ensures r.Next().Valid() && y in r.Next().items && z in r.Next().items
    ensures Before(r.Next(), z, y) <==> Before(r, z, y) && r.Turn()[0] != z
    ensures r.Turn()[0] == z ==> Before(r, z, y)
  {
    NextTurn(r);
    TurnDistinct(r);
    var t := r.Turn();
    var i, j := Position(t, z), Position(t, y);
    OrderByPosition(r, i, j);
    DistinctAt(t, 0);
    var i' := if i == 0 then |t| - 1 else i - 1;
    var t' := r.Next().Turn();
    assert t'[i'] == z && t'[j - 1] == y;
    OrderByPosition(r.Next(), i', j - 1);
  }

  lemma StepOrderAdd<T>(r: Ring<T>, x: T, y: T, z: T)
    requires r.Valid() && y in r.items && z in r.items && y != z && x !in r.items
    ensures r.InsertEnd(x).Valid() && y in r.InsertEnd(x).items && z in r.InsertEnd(x).items
    ensures Before(r.InsertEnd(x), z, y) <==> Before(r, z, y)
  {
    InsertEndTurn(r, x);
    TurnDistinct(r);
    var t, n := r.Turn(), |r.items|;
    var i, j := Position(t, z), Position(t, y);
    OrderByPosition(r, i, j);
    var i' := if i == n - 1 && r.index > 0 then n else i;
    var j' := if j == n - 1 && r.index > 0 then n else j;
    OrderByPosition(r.InsertEnd(x), i', j');
  }

  lemma StepOrderDrop<T>(r: Ring<T>, x: T, y: T, z: T)
    requires r.Valid() && y in r.items && z in r.items && y != z && x in r.items
    requires x != y && x != z
    ensures r.Remove(x).Valid() && y in r.Remove(x).items && z in r.Remove(x).items
    ensures Before(r.Remove(x), z, y) <==> Before(r, z, y)
  {
    RemoveTurn(r, x);
    TurnDistinct(r);
    OrderByPosition(r, Position(r.Turn(), z), Position(r.Turn(), y));
    var i := DropPosition(r.Turn(), x, z);
    var j := DropPosition(r.Turn(), x, y);
    OrderByPosition(r.Remove(x), i, j);
  }

  lemma DropPosition<T>(t: seq<T>, x: T, z: T) returns (i: nat)
    requires x in t && z in t && x != z
    ensures i < |Without(t, x)| && Without(t, x)[i] == z
    ensures i == if Position(t, z) < Position(t, x) then Position(t, z) else Position(t, z) - 1
  {
    i := if Position(t, z) < Position(t, x) then Position(t, z) else Position(t, z) - 1;
    WithoutAt(t, x, i);
  }

  ghost predicate Keeps<T>(ops: seq<Op<T>>, z: T) {
    forall i :: 0 <= i < |ops| ==> ops[i] != Drop(z)
  }

  lemma {:induction false} PickedOnceWhileWaiting<T>(r: Ring<T>, ops: seq<Op<T>>, y: T, z: T)
    requires r.Valid() && y in r.items && z in r.items && y != z
    requires Keeps(ops, y) && Keeps(ops, z) && Picks(r, ops, y) == 0
    ensures y in PerformAll(r, ops).items && z in PerformAll(r, ops).items
    ensures Picks(r, ops, z) ==
            if Before(r, z, y) && !Before(PerformAll(r, ops), z, y) then 1 else 0
    ensures Before(PerformAll(r, ops), z, y) ==> Before(r, z, y)
    decreases |ops|
  {
    if ops != [] {
      StepOrder(r, ops[0], y, z);
      PickedOnceWhileWaiting(Perform(r, ops[0]), ops[1..], y, z);
    }
  }

  /** Round robin: between two successive selections of `y`, every other item that stays
      in the list is selected exactly once, whatever is added or dropped meanwhile. */
  lemma {:induction false} RoundRobinIsFair<T>(r: Ring<T>, ops: seq<Op<T>>, y: T, z: T)
    requires r.Valid() && y in r.items && z in r.items && y != z && r.Turn()[0] == y
    requires Keeps(ops, y) && Keeps(ops, z)
    requires r.Next().Valid() && Picks(r.Next(), ops, y) == 0
    requires PerformAll(r.Next(), ops).items != [] && PerformAll(r.Next(), ops).Turn()[0] == y
    ensures Picks(r.Next(), ops, z) == 1
  {
    var s := r.Next();
    NextTurn(r);
    TurnDistinct(r);
    OrderByPosition(s, Position(r.Turn(), z) - 1, |r.Turn()| - 1);
    PickedOnceWhileWaiting(s, ops, y, z);
    var e := PerformAll(s, ops);
    TurnDistinct(e);
    OrderByPosition(e, Position(e.Turn(), z), 0);
  }
}
