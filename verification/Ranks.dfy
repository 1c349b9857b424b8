/** How the mutex code of lib/FreeRTOS/tasks.c changes the priority of one task. */
module Ranks {

  /** uxPriority, uxBasePriority and uxMutexesHeld of a TCB. */
  datatype Rank = Rank(priority: nat, base: nat, held: nat) {

    // pvTaskIncrementMutexHeldCount
    function Take(): Rank {
      this.(held := held + 1)
    }

    // xTaskPriorityInherit, the running task having priority `p`
    function Inherit(p: nat): Rank {
      if priority < p then this.(priority := p) else this
    }

    // The result of xTaskPriorityInherit: the holder has, or had, less than `p`
    predicate Inherits(p: nat) {
      priority < p || base < p
    }

    // xTaskPriorityDisinherit
    function Disinherit(): Rank
      requires held > 0
    {
      Rank(if held == 1 then base else priority, base, held - 1)
    }

    // vTaskPriorityDisinheritAfterTimeout, the highest waiter left having priority `h`
    function AfterTimeout(h: nat): Rank
      requires held > 0
    {
      if held == 1 then this.(priority := if base < h then h else base) else this
    }

    // vTaskPrioritySet
    function SetBase(p: nat): Rank {
      Rank(if priority == base then p else priority, p, held)
    }
  }

  /** The running task blocks on a mutex of `r`, several times. */
  function InheritAll(r: Rank, ps: seq<nat>): Rank
    decreases |ps|
  {
    if ps == [] then r else InheritAll(r.Inherit(ps[0]), ps[1..])
  }

  lemma {:induction false} InheritedIs(r: Rank, ps: seq<nat>)
    ensures var q := InheritAll(r, ps);
            && q.base == r.base && q.held == r.held && r.priority <= q.priority && (forall p <- ps :: p <= q.priority)
            && (q.priority == r.priority || q.priority in ps)
    decreases |ps|
  {
    if ps != [] {
      InheritedIs(r.Inherit(ps[0]), ps[1..]);
      assert forall p <- ps :: p == ps[0] || p in ps[1..];
    }
  }

  /** Take a mutex, inherit, and give it back: the rank is what it was, whoever has waited. */
  lemma TakeAndGive(r: Rank, ps: seq<nat>)
    requires r.held == 0 && r.priority == r.base
    ensures InheritAll(r.Take(), ps).held == 1 && InheritAll(r.Take(), ps).Disinherit() == r
  {
    InheritedIs(r.Take(), ps);
  }

  /** A new base priority takes effect at once, or, under an inherited priority, with the give
      of the last mutex. */
  lemma SetBaseThenGive(r: Rank, p: nat)
    requires r.held == 1
    ensures r.priority == r.base ==> r.SetBase(p).priority == p
    ensures r.priority != r.base ==> r.SetBase(p).priority == r.priority
    ensures r.SetBase(p).Disinherit() == Rank(p, p, 0)
    ensures r.Disinherit() == Rank(r.base, r.base, 0)
  {
  }
}
