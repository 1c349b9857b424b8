/** Event groups (lib/FreeRTOS/event_groups.c): tasks wait for any or all of some bits, and
    what they wait for is packed into the value of their event list item. */
module EventGroups {
  import Clocks

  type Task = Clocks.Task
  type Bits = bv32

  const CLEAR_EVENTS_ON_EXIT: Bits := 0x0100_0000
  const UNBLOCKED_DUE_TO_BIT_SET: Bits := 0x0200_0000
  const WAIT_FOR_ALL_BITS: Bits := 0x0400_0000
  const CONTROL_BYTES: Bits := 0xff00_0000
  const VALUE_IN_USE: Bits := 0x8000_0000  // taskEVENT_LIST_ITEM_VALUE_IN_USE

  function Union(a: Bits, b: Bits): Bits {
    a | b
  }

  function Minus(a: Bits, b: Bits): Bits {
    a & !b
  }

  /** Whether two masks have a bit in common. */
  predicate Hits(a: Bits, m: Bits) {
    a & m != 0
  }

  /** Bits that a user may set, clear and wait for (the configASSERTs of all functions). */
  predicate Usable(bits: Bits) {
    bits & CONTROL_BYTES == 0
  }

  // prvTestWaitCondition
  predicate Met(bits: Bits, wanted: Bits, all: bool) {
    if all then bits & wanted == wanted else bits & wanted != 0
  }

  // ------------------------------------------------------------------------ bit by bit

  predicate Single(m: Bits) {
    m != 0 && m & (m - 1) == 0
  }

  /** Every bit of `wanted` is set in `bits`. */
  ghost predicate HasAll(bits: Bits, wanted: Bits) {
    forall m :: Single(m) && Hits(wanted, m) ==> Hits(bits, m)
  }

  /** Some bit of `wanted` is set in `bits`. */
  ghost predicate HasAny(bits: Bits, wanted: Bits) {
    exists m :: Single(m) && Hits(wanted, m) && Hits(bits, m)
  }

  ghost predicate Has(bits: Bits, wanted: Bits, all: bool) {
    if all then HasAll(bits, wanted) else HasAny(bits, wanted)
  }

  function Lowest(d: Bits): Bits {
    d & (0 - d)
  }

  lemma LowestIs(d: Bits)
    requires d != 0
    ensures Single(Lowest(d)) && Hits(d, Lowest(d))
  {
  }

  lemma LowestWithin(a: Bits, b: Bits)
    requires a & b != 0
    ensures Hits(a, Lowest(a & b)) && Hits(b, Lowest(a & b))
  {
  }

  lemma SingleInAll(bits: Bits, wanted: Bits, m: Bits)
    requires bits & wanted == wanted && Hits(wanted, m)
    ensures Hits(bits, m)
  {
    assert wanted & m == (bits & wanted) & m;
    assert (bits & wanted) & m == (bits & m) & wanted;
    assert 0 & wanted == 0;
  }

  lemma NotAllMisses(bits: Bits, wanted: Bits)
    requires bits & wanted != wanted
    ensures wanted & !bits != 0 && !Hits(bits, Lowest(wanted & !bits)) && Hits(wanted, Lowest(wanted & !bits))
  {
  }

  lemma HitsBoth(a: Bits, b: Bits, m: Bits)
    requires Single(m) && Hits(a, m) && Hits(b, m)
    ensures a & b != 0
  {
  }

  /** The test is right, bit by bit: for all bits if and only if each wanted bit is set, for
      any if and only if one is. */
  lemma MetIs(bits: Bits, wanted: Bits, all: bool)
    ensures Met(bits, wanted, all) <==> Has(bits, wanted, all)
  {
    hide Hits, Single, Lowest;
    if all {
      if bits & wanted == wanted {
        forall m | Single(m) && Hits(wanted, m) ensures Hits(bits, m) {
          SingleInAll(bits, wanted, m);
        }
      } else {
        NotAllMisses(bits, wanted);
        LowestIs(wanted & !bits);
        assert Single(Lowest(wanted & !bits));
      }
    } else if bits & wanted != 0 {
      LowestWithin(bits, wanted);
      LowestIs(bits & wanted);
      assert Single(Lowest(bits & wanted));
    } else if HasAny(bits, wanted) {
      var m :| Single(m) && Hits(wanted, m) && Hits(bits, m);
      HitsBoth(bits, wanted, m);
      assert false;
    }
  }

  /** Clearing takes exactly the given bits away. */
  lemma MinusIs(a: Bits, b: Bits, m: Bits)
    requires Single(m)
    ensures Hits(Minus(a, b), m) <==> Hits(a, m) && !Hits(b, m)
  {
    SingleHits(a, m);
    SingleHits(b, m);
    assert (a & !b) & m == (a & m) & !b;
    assert 0 & !b == 0;
    if b & m == 0 {
      Untouched(m, b);
    } else {
      Covered(m, b);
    }
  }

  lemma SingleHits(a: Bits, m: Bits)
    requires Single(m)
    ensures a & m == 0 || a & m == m
  {
  }

  lemma Untouched(m: Bits, b: Bits)
    requires b & m == 0
    ensures m & !b == m
  {
  }

  lemma Covered(m: Bits, b: Bits)
    requires b & m == m
    ensures m & !b == 0
  {
  }

  /** A blocked task, and the value of its event list item. */
  datatype Waiter = Waiter(task: Task, value: Bits) {

    function Wanted(): Bits {
      Minus(value, CONTROL_BYTES)
    }

    predicate All() {
      Hits(value, WAIT_FOR_ALL_BITS)
    }

    predicate Clears() {
      Hits(value, CLEAR_EVENTS_ON_EXIT)
    }

    predicate Satisfied(bits: Bits) {
      Met(bits, Wanted(), All())
    }
  }

  // vTaskPlaceOnUnorderedEventList, as the callers here use it
  function Packed(t: Task, wanted: Bits, clear: bool, all: bool): Waiter {
    var control := (if clear then CLEAR_EVENTS_ON_EXIT else 0) | (if all then WAIT_FOR_ALL_BITS else 0);
    Waiter(t, wanted | control | VALUE_IN_USE)
  }

  lemma PackedIs(t: Task, wanted: Bits, clear: bool, all: bool)
    requires Usable(wanted)
    ensures var w := Packed(t, wanted, clear, all);
            w.Wanted() == wanted && w.Clears() == clear && w.All() == all && w.task == t
            && !Hits(w.value, UNBLOCKED_DUE_TO_BIT_SET)
  {
  }

  lemma AllOfLess(bits: Bits, cleared: Bits, wanted: Bits)
    requires Met(Minus(bits, cleared), wanted, true)
    ensures Met(bits, wanted, true)
  {
    assert (bits & !cleared) & wanted == bits & wanted & !cleared;
  }

  lemma AnyOfLess(bits: Bits, cleared: Bits, wanted: Bits)
    requires Met(Minus(bits, cleared), wanted, false)
    ensures Met(bits, wanted, false)
  {
    assert (bits & !cleared) & wanted == bits & wanted & !cleared;
    assert 0 & !cleared == 0;
  }

  /** Clearing bits satisfies nobody. */
  lemma ClearingMeetsNothing(bits: Bits, cleared: Bits, wanted: Bits, all: bool)
    requires Met(Minus(bits, cleared), wanted, all)
    ensures Met(bits, wanted, all)
  {
    hide Met, Minus;
    if all {
      AllOfLess(bits, cleared, wanted);
    } else {
      AnyOfLess(bits, cleared, wanted);
    }
  }

  // ------------------------------------------------------------------- the traversal

  /** The waiters that are satisfied by `bits`, or those that are not, in list order. */
  function Those(ws: seq<Waiter>, bits: Bits, satisfied: bool): seq<Waiter> {
    if ws == [] then []
    else (if ws[0].Satisfied(bits) == satisfied then [ws[0]] else []) + Those(ws[1..], bits, satisfied)
  }

  lemma {:induction false} ThoseMembers(ws: seq<Waiter>, bits: Bits, satisfied: bool, w: Waiter)
    ensures w in Those(ws, bits, satisfied) <==> w in ws && w.Satisfied(bits) == satisfied
  {
    if ws != [] {
      ThoseMembers(ws[1..], bits, satisfied, w);
      assert w in ws <==> w == ws[0] || w in ws[1..];
    }
  }

  lemma {:induction false} ThoseSplit(a: seq<Waiter>, b: seq<Waiter>, bits: Bits, satisfied: bool)
    ensures Those(a + b, bits, satisfied) == Those(a, bits, satisfied) + Those(b, bits, satisfied)
  {
    if a == [] {
      assert a + b == b;
    } else {
      assert (a + b)[1..] == a[1..] + b;
      ThoseSplit(a[1..], b, bits, satisfied);
    }
  }

  lemma UnionHits(a: Bits, b: Bits, m: Bits)
    ensures Hits(Union(a, b), m) <==> Hits(a, m) || Hits(b, m)
    ensures !Hits(0, m)
  {
    assert (a | b) & m == (a & m) | (b & m);
    assert 0 & m == 0;
  }

  lemma UnionLaws(a: Bits, b: Bits, c: Bits)
    ensures Union(Union(a, b), c) == Union(a, Union(b, c)) && Union(a, 0) == a && Union(0, a) == a
  {
  }

  lemma DifferentBits(a: Bits, b: Bits)
    requires a != b
    ensures exists m :: Hits(a, m) != Hits(b, m)
  {
    var m := a & !b;
    var n := b & !a;
    BitsApart(a, b);
    assert Hits(a, m) != Hits(b, m) || Hits(a, n) != Hits(b, n);
  }

  lemma BitsApart(a: Bits, b: Bits)
    requires a != b
    ensures Hits(a, a & !b) != Hits(b, a & !b) || Hits(a, b & !a) != Hits(b, b & !a)
  {
  }

  /** What a waiter has cleared when it is released. */
  function Claim(w: Waiter, bits: Bits): Bits {
    if w.Satisfied(bits) && w.Clears() then w.Wanted() else 0
  }

  /** What the released waiters have cleared. */
  function ClearMask(ws: seq<Waiter>, bits: Bits): Bits {
    if ws == [] then 0 else Union(Claim(ws[0], bits), ClearMask(ws[1..], bits))
  }

  lemma {:induction false} ClearMaskSplit(a: seq<Waiter>, b: seq<Waiter>, bits: Bits)
    ensures ClearMask(a + b, bits) == Union(ClearMask(a, bits), ClearMask(b, bits))
  {
    hide Union, Claim;
    if a == [] {
      assert a + b == b;
      UnionLaws(ClearMask(b, bits), 0, 0);
    } else {
      assert (a + b)[1..] == a[1..] + b;
      ClearMaskSplit(a[1..], b, bits);
      UnionLaws(Claim(a[0], bits), ClearMask(a[1..], bits), ClearMask(b, bits));
    }
  }

  /** The mask is exactly the union of what the released, clearing waiters wanted. */
  lemma {:induction false} ClearMaskIsUnion(ws: seq<Waiter>, bits: Bits, m: Bits)
    ensures Hits(ClearMask(ws, bits), m) <==> exists w :: w in ws && Hits(Claim(w, bits), m)
  {
    hide Union, Claim, Hits;
    UnionHits(0, 0, m);
    if ws != [] {
      ClearMaskIsUnion(ws[1..], bits, m);
      UnionHits(Claim(ws[0], bits), ClearMask(ws[1..], bits), m);
      assert forall w :: w in ws <==> w == ws[0] || w in ws[1..];
    }
  }

  /** Whatever the order of the list: the same tasks are released and the same bits cleared. */
  lemma OrderDoesNotMatter(ws: seq<Waiter>, vs: seq<Waiter>, bits: Bits)
    requires forall w :: w in ws <==> w in vs
    ensures forall w :: w in Those(ws, bits, true) <==> w in Those(vs, bits, true)
    ensures ClearMask(ws, bits) == ClearMask(vs, bits)
  {
    hide Claim, Hits, Met, Those, ClearMask;
    forall w ensures w in Those(ws, bits, true) <==> w in Those(vs, bits, true) {
      ThoseMembers(ws, bits, true, w);
      ThoseMembers(vs, bits, true, w);
    }
    var a, b := ClearMask(ws, bits), ClearMask(vs, bits);
    if a != b {
      DifferentBits(a, b);
      var m :| Hits(a, m) != Hits(b, m);
      ClearMaskIsUnion(ws, bits, m);
      ClearMaskIsUnion(vs, bits, m);
    }
  }

  /** No waiter whose condition holds is left waiting. */
  ghost predicate NoneStranded(ws: seq<Waiter>, bits: Bits) {
    forall w <- ws :: !w.Satisfied(bits)
  }

  lemma ClearingStrandsNobody(ws: seq<Waiter>, bits: Bits, cleared: Bits)
    requires NoneStranded(ws, bits)
    ensures NoneStranded(ws, Minus(bits, cleared))
  {
    hide Met, Minus;
    forall w | w in ws ensures !w.Satisfied(Minus(bits, cleared)) {
      if w.Satisfied(Minus(bits, cleared)) {
        ClearingMeetsNothing(bits, cleared, w.Wanted(), w.All());
      }
    }
  }

  lemma TheOthersWait(ws: seq<Waiter>, bits: Bits)
    ensures NoneStranded(Those(ws, bits, false), bits)
  {
    forall w | w in Those(ws, bits, false) ensures !w.Satisfied(bits) {
      ThoseMembers(ws, bits, false, w);
    }
  }

  /** What a released task finds in its event list item. */
  function Released(ws: seq<Waiter>, value: Bits): seq<Waiter> {
    if ws == [] then [] else [Waiter(ws[0].task, value)] + Released(ws[1..], value)
  }

  lemma {:induction false} ReleasedSplit(a: seq<Waiter>, b: seq<Waiter>, value: Bits)
    ensures Released(a + b, value) == Released(a, value) + Released(b, value)
  {
    if a == [] {
      assert a + b == b;
    } else {
      assert (a + b)[1..] == a[1..] + b;
      ReleasedSplit(a[1..], b, value);
    }
  }

  // vTaskRemoveFromUnorderedEventList stores this, of which the task gets the event bits
  function Stored(bits: Bits): Bits {
    bits | UNBLOCKED_DUE_TO_BIT_SET | VALUE_IN_USE
  }

  class EventGroup {
    var bits: Bits               // uxEventBits
    var waiting: seq<Waiter>     // xTasksWaitingForBits

    ghost predicate Valid()
      reads this
    {
      NoneStranded(waiting, bits)
    }

    constructor ()
      ensures Valid() && bits == 0 && waiting == []
    {
      bits, waiting := 0, [];
    }

    // xEventGroupSetBits; `woken` are the tasks taken off the list, with their item values
    method SetBits(toSet: Bits) returns (woken: seq<Waiter>)
      requires Usable(toSet)
      modifies this
      ensures Valid()
      ensures var now := Union(old(bits), toSet);
              && woken == Released(Those(old(waiting), now, true), Stored(now))
              && waiting == Those(old(waiting), now, false)
              && bits == Minus(now, ClearMask(old(waiting), now))
      ensures var now := Union(old(bits), toSet);
              forall w <- old(waiting) ::
                && (w in waiting <==> !Has(now, w.Wanted(), w.All()))
                && (Has(now, w.Wanted(), w.All()) ==> Waiter(w.task, Stored(now)) in woken)
    {
      hide Union, Minus, Usable, Stored, Waiter.Wanted, Waiter.All, Waiter.Clears, Waiter.Satisfied, Has;
      hide Those, Released, ClearMask;
      bits := Union(bits, toSet);
      woken := [];
      var toClear: Bits := 0;
      ghost var ws, i := waiting, 0;
      NothingVisited(ws, bits);
      var next := 0;                       // pxListItem, as the number of items before it
      while next < |waiting|
        invariant i <= |ws| && bits == Union(old(bits), toSet)
        invariant waiting == Those(ws[..i], bits, false) + ws[i..]
        invariant next == |Those(ws[..i], bits, false)|
        invariant woken == Released(Those(ws[..i], bits, true), Stored(bits))
        invariant toClear == ClearMask(ws[..i], bits)
        decreases |ws| - i
      {
        var w := waiting[next];
        Visited(ws, i, bits);
        VisitedMask(ws, i, bits);
        OneMoreReleased(Those(ws[..i], bits, true), w, Stored(bits));
        CutNext(waiting, Those(ws[..i], bits, false), ws[i..]);
        if w.Satisfied(bits) {
          if w.Clears() {
            toClear := Union(toClear, w.Wanted());
          }
          woken := woken + [Waiter(w.task, Stored(bits))];
          waiting := waiting[..next] + waiting[next + 1..];
        } else {
          next := next + 1;
        }
        i := i + 1;
      }
      assert ws[..i] == ws;
      TheOthersWait(ws, bits);
      ClearingStrandsNobody(waiting, bits, toClear);
      forall w | w in ws ensures w in waiting <==> !Has(bits, w.Wanted(), w.All())
                         ensures Has(bits, w.Wanted(), w.All()) ==> Waiter(w.task, Stored(bits)) in woken {
        ReleasedIfHas(ws, w, bits);
      }
      bits := Minus(bits, toClear);
    }

    // xEventGroupClearBits
    method ClearBits(toClear: Bits) returns (before: Bits)
      requires Valid() && Usable(toClear)
      modifies `bits
      ensures Valid() && before == old(bits) && bits == Minus(old(bits), toClear)
    {
      hide Minus;
      before := bits;
      ClearingStrandsNobody(waiting, bits, toClear);
      bits := Minus(bits, toClear);
    }

    // xEventGroupWaitBits, up to the blocking; `blocks` if the task is put on the list
    method WaitBits(t: Task, wanted: Bits, clearOnExit: bool, all: bool, ticks: nat)
      returns (r: Bits, blocks: bool)
      requires Valid() && Usable(wanted) && wanted != 0
      modifies this
      ensures Valid()
      ensures blocks <==> !Met(old(bits), wanted, all) && ticks != 0
      ensures blocks <==> !(if all then HasAll(old(bits), wanted) else HasAny(old(bits), wanted)) && ticks != 0
      ensures waiting == old(waiting) + if blocks then [Packed(t, wanted, clearOnExit, all)] else []
      ensures !blocks ==> r == old(bits)
      ensures bits == if Met(old(bits), wanted, all) && clearOnExit then Minus(old(bits), wanted) else old(bits)
    {
      hide Met, Minus, Usable, Packed, Waiter.Wanted, Waiter.All, Waiter.Clears;
      hide HasAll, HasAny;
      r, blocks := bits, false;
      MetIs(bits, wanted, all);
      PackedIs(t, wanted, clearOnExit, all);
      if Met(bits, wanted, all) {
        if clearOnExit {
          ClearingStrandsNobody(waiting, bits, wanted);
          bits := Minus(bits, wanted);
        }
      } else if ticks != 0 {
        waiting := waiting + [Packed(t, wanted, clearOnExit, all)];
        r, blocks := 0, true;
      }
    }

    // A waiter leaves the list because its block time has expired
    method Expire(i: nat)
      requires Valid() && i < |waiting|
      modifies `waiting
      ensures Valid() && waiting == old(waiting)[..i] + old(waiting)[i + 1..]
    {
      waiting := waiting[..i] + waiting[i + 1..];
    }

    // xEventGroupWaitBits, from where a task that had blocked goes on; `value` is its item value
    method Unblocked(value: Bits, wanted: Bits, clearOnExit: bool, all: bool) returns (r: Bits)
      requires Valid()
      modifies `bits
      ensures Valid()
      ensures Hits(value, UNBLOCKED_DUE_TO_BIT_SET) ==> bits == old(bits) && r == Minus(value, CONTROL_BYTES)
      ensures !Hits(value, UNBLOCKED_DUE_TO_BIT_SET) ==>
        && r == Minus(old(bits), CONTROL_BYTES)
        && bits == (if Met(old(bits), wanted, all) && clearOnExit then Minus(old(bits), wanted) else old(bits))
        && (bits != old(bits) ==>
              clearOnExit && if all then HasAll(old(bits), wanted) else HasAny(old(bits), wanted))
    {
      hide HasAll, HasAny;
      MetIs(bits, wanted, all);
      hide Met, Minus, Hits;
      r := value;
      if !Hits(r, UNBLOCKED_DUE_TO_BIT_SET) {
        r := bits;
        if Met(r, wanted, all) {
          if clearOnExit {
            ClearingStrandsNobody(waiting, bits, wanted);
            bits := Minus(bits, wanted);
          }
        }
      }
      r := Minus(r, CONTROL_BYTES);
    }

    // xEventGroupSync, up to the blocking
    method Sync(t: Task, toSet: Bits, wanted: Bits, ticks: nat)
      returns (r: Bits, blocks: bool, woken: seq<Waiter>)
      requires Usable(toSet) && Usable(wanted) && wanted != 0
      modifies this
      ensures Valid()
      ensures var now := Union(old(bits), toSet);
              && woken == Released(Those(old(waiting), now, true), Stored(now))
              && (blocks <==> !Met(now, wanted, true) && ticks != 0)
              && waiting == Those(old(waiting), now, false) + (if blocks then [Packed(t, wanted, true, true)] else [])
              && (Met(now, wanted, true) ==> r == now && !Hits(bits, wanted))
              && bits == Minus(Minus(now, ClearMask(old(waiting), now)), if Met(now, wanted, true) then wanted else 0)
      ensures var now := Union(old(bits), toSet);
              && (blocks <==> !HasAll(now, wanted) && ticks != 0)
              && (HasAll(now, wanted) ==> HasAll(r, wanted) && !HasAny(bits, wanted))
    {
      hide HasAll, HasAny;
      MetIs(Union(bits, toSet), wanted, true);
      hide Met, Minus, Hits, Union, Usable, Packed, Stored, Waiter.Wanted, Waiter.All, Waiter.Clears;
      var original := bits;
      woken := SetBits(toSet);
      PackedIs(t, wanted, true, true);
      r, blocks := bits, false;
      Cleared(bits, wanted);
      if Met(Union(original, toSet), wanted, true) {
        r := Union(original, toSet);
        ClearingStrandsNobody(waiting, bits, wanted);
        NoneLeft(bits, wanted);
        bits := Minus(bits, wanted);
      } else {
        if ticks != 0 {
          if Met(bits, wanted, true) {
            ClearingMeetsNothing(Union(original, toSet), ClearMask(old(waiting), Union(original, toSet)), wanted, true);
          }
          waiting := waiting + [Packed(t, wanted, true, true)];
          r, blocks := 0, true;
        }
      }
    }
  }

  lemma Cleared(bits: Bits, wanted: Bits)
    ensures !Hits(Minus(bits, wanted), wanted) && Minus(bits, 0) == bits
  {
    assert (bits & !wanted) & wanted == 0;
    assert bits & !0 == bits;
  }

  lemma NoneLeft(bits: Bits, wanted: Bits)
    ensures !HasAny(Minus(bits, wanted), wanted)
  {
    hide Minus, Single, Hits;
    forall m | Single(m) && Hits(wanted, m) ensures !Hits(Minus(bits, wanted), m) {
      MinusIs(bits, wanted, m);
    }
  }

  lemma {:induction false} ReleasedMembers(ws: seq<Waiter>, w: Waiter, value: Bits)
    ensures w in ws ==> Waiter(w.task, value) in Released(ws, value)
  {
    if ws != [] {
      ReleasedMembers(ws[1..], w, value);
      assert w in ws <==> w == ws[0] || w in ws[1..];
    }
  }

  lemma ReleasedIfHas(ws: seq<Waiter>, w: Waiter, now: Bits)
    requires w in ws
    ensures w in Those(ws, now, false) <==> !Has(now, w.Wanted(), w.All())
    ensures Has(now, w.Wanted(), w.All()) ==> Waiter(w.task, Stored(now)) in Released(Those(ws, now, true), Stored(now))
  {
    hide Met, Has, Those, Stored, Waiter.Wanted, Waiter.All;
    MetIs(now, w.Wanted(), w.All());
    ThoseMembers(ws, now, true, w);
    ThoseMembers(ws, now, false, w);
    ReleasedMembers(Those(ws, now, true), w, Stored(now));
  }

  lemma CutNext<T>(s: seq<T>, a: seq<T>, b: seq<T>)
    requires s == a + b && b != []
    ensures s[|a|] == b[0] && s[..|a|] + s[|a| + 1..] == a + b[1..] && s == (a + [b[0]]) + b[1..]
  {
  }

  /** A pass of the traversal, at item `i` of the list as it was. */
  lemma Visited(ws: seq<Waiter>, i: nat, bits: Bits)
    requires i < |ws|
    ensures var w := ws[i];
            && Those(ws[..i + 1], bits, false)
               == (if w.Satisfied(bits) then Those(ws[..i], bits, false) else Those(ws[..i], bits, false) + [w])
            && Those(ws[..i + 1], bits, true)
               == (if w.Satisfied(bits) then Those(ws[..i], bits, true) + [w] else Those(ws[..i], bits, true))
            && ws[i..][1..] == ws[i + 1..] && ws[i..][0] == w
  {
    hide Waiter.Satisfied;
    var w := ws[i];
    assert ws[..i + 1] == ws[..i] + [w];
    ThoseSplit(ws[..i], [w], bits, false);
    ThoseSplit(ws[..i], [w], bits, true);
    OneOfThose(w, bits, false);
    OneOfThose(w, bits, true);
  }

  lemma OneOfThose(w: Waiter, bits: Bits, satisfied: bool)
    ensures Those([w], bits, satisfied) == if w.Satisfied(bits) == satisfied then [w] else []
  {
    hide Waiter.Satisfied;
    assert [w][1..] == [] && Those([], bits, satisfied) == [];
  }

  lemma OneMoreReleased(ws: seq<Waiter>, w: Waiter, value: Bits)
    ensures Released(ws + [w], value) == Released(ws, value) + [Waiter(w.task, value)]
  {
    ReleasedSplit(ws, [w], value);
    assert [w][1..] == [];
  }

  lemma NothingVisited(ws: seq<Waiter>, bits: Bits)
    ensures Those(ws[..0], bits, false) == Those(ws[..0], bits, true) == [] && ClearMask(ws[..0], bits) == 0
    ensures forall v :: Released([], v) == []
  {
  }

  lemma VisitedMask(ws: seq<Waiter>, i: nat, bits: Bits)
    requires i < |ws|
    ensures var w := ws[i];
            ClearMask(ws[..i + 1], bits)
            == (if w.Satisfied(bits) && w.Clears() then Union(ClearMask(ws[..i], bits), w.Wanted())
                else ClearMask(ws[..i], bits))
  {
    hide Union, Waiter.Satisfied, Waiter.Clears, Waiter.Wanted;
    var w := ws[i];
    assert ws[..i + 1] == ws[..i] + [w];
    assert [w][1..] == [];
    ClearMaskSplit(ws[..i], [w], bits);
    UnionLaws(Claim(w, bits), 0, 0);
    UnionLaws(ClearMask(ws[..i], bits), 0, 0);
  }

  /** What a released task gets: the bits as they were set, whatever has been cleared since. */
  lemma StoredIs(now: Bits)
    requires Usable(now)
    ensures Hits(Stored(now), UNBLOCKED_DUE_TO_BIT_SET) && Minus(Stored(now), CONTROL_BYTES) == now
  {
  }

  lemma StoredHas(now: Bits, wanted: Bits)
    requires Usable(wanted) && Met(now, wanted, true)
    ensures Met(Minus(Stored(now), CONTROL_BYTES), wanted, true)
  {
  }

  /** The last to arrive at a rendezvous releases every task that waits for the same bits,
      and each of them finds every one of these bits set. */
  lemma LastArrivalReleasesAll(ws: seq<Waiter>, now: Bits, t: Task, wanted: Bits)
    requires Usable(wanted) && HasAll(now, wanted) && Packed(t, wanted, true, true) in ws
    ensures Packed(t, wanted, true, true) in Those(ws, now, true)
    ensures Packed(t, wanted, true, true) !in Those(ws, now, false)
    ensures HasAll(Minus(Stored(now), CONTROL_BYTES), wanted)
  {
    var w := Packed(t, wanted, true, true);
    PackedIs(t, wanted, true, true);
    MetIs(now, wanted, true);
    StoredHas(now, wanted);
    MetIs(Minus(Stored(now), CONTROL_BYTES), wanted, true);
    hide Met, HasAll;
    ThoseMembers(ws, now, true, w);
    ThoseMembers(ws, now, false, w);
  }

  /** Two bits wanted, one set: enough for any, not for all. */
  lemma AnyIsNotAll()
    ensures HasAny(1, 3) && !HasAll(1, 3) && Met(1, 3, false) && !Met(1, 3, true)
  {
    MetIs(1, 3, true);
    MetIs(1, 3, false);
  }
}
