/** Time limits kept in 32-bit ticks: vTaskSetTimeOutState, xTaskCheckForTimeOut and
    vTaskDelayUntil of lib/FreeRTOS/tasks.c, against absolute time. */
module Deadlines {
  import opened Rings
  import opened Words

  function Ticks32(now: nat): (t: nat)
    ensures t < WRAP
  {
    now % WRAP
  }

  /** xNumOfOverflows at absolute tick `now`. */
  function Overflows(now: nat): (t: nat)
    ensures t < WRAP
  {
    now / WRAP % WRAP
  }

  /** A TimeOut_t, and the ticks that its owner is still prepared to wait. */
  datatype Wait = Wait(entered: nat, overflows: nat, ticksToWait: nat)

  ghost function Armed(now: nat, ticks: nat): Wait {
    Wait(Ticks32(now), Overflows(now), ticks)
  }

  function Elapsed(from: nat, to: nat): nat {
    (to - from) % WRAP
  }

  /** Whether xTaskCheckForTimeOut reports a time-out, and what it leaves behind. */
  function Checked(w: Wait, tick: nat, overflows: nat): (r: (bool, Wait)) {
    if w.ticksToWait == MAX_DELAY then (false, w)
    else if overflows != w.overflows && tick >= w.entered then (true, w)
    else if Elapsed(w.entered, tick) < w.ticksToWait then
      (false, Wait(tick, overflows, w.ticksToWait - Elapsed(w.entered, tick)))
    else (true, w.(ticksToWait := 0))
  }

  class Timeout {
    var overflowCount: nat
    var timeOnEntering: nat
    var ticksToWait: nat

    function Contents(): Wait
      reads this
    {
      Wait(timeOnEntering, overflowCount, ticksToWait)
    }

    // vTaskSetTimeOutState; xTickCount and xNumOfOverflows are parameters
    constructor (tick: nat, overflows: nat, ticks: nat, ghost now: nat)
      requires tick == Ticks32(now) && overflows == Overflows(now)
      ensures Contents() == Armed(now, ticks)
    {
      overflowCount := overflows;
      timeOnEntering := tick;
      ticksToWait := ticks;
    }

    // xTaskCheckForTimeOut
    method Check(tick: nat, overflows: nat) returns (timedOut: bool)
      modifies this
      ensures (timedOut, Contents()) == Checked(old(Contents()), tick, overflows)
    {
      var elapsed := Elapsed(timeOnEntering, tick);
      if ticksToWait == MAX_DELAY {
        timedOut := false;
      } else if overflows != overflowCount && tick >= timeOnEntering {
        timedOut := true;
      } else if elapsed < ticksToWait {
        ticksToWait := ticksToWait - elapsed;
        overflowCount, timeOnEntering := overflows, tick;
        timedOut := false;
      } else {
        ticksToWait := 0;
        timedOut := true;
      }
    }
  }

  ghost function CheckedAt(w: Wait, now: nat): (bool, Wait) {
    Checked(w, Ticks32(now), Overflows(now))
  }

  /** The clock has gone round so far that the check sees only the ticks since the last round. */
  ghost predicate Blind(start: nat, now: nat) {
    now - start >= WRAP && (Ticks32(now) < Ticks32(start) || Overflows(now) == Overflows(start))
  }

  /** A check tells the truth about the deadline, exactly unless it is blind and the ticks
      that it does see fall short of the limit. */
  lemma CheckIsExact(start: nat, ticks: nat, now: nat)
    requires start <= now && ticks < MAX_DELAY
    ensures (CheckedAt(Armed(start, ticks), now).0 <==> start + ticks <= now)
       <==> !(Blind(start, now) && (now - start) % WRAP < ticks)
  {
    ElapsedIs(start, now);
  }

  lemma ElapsedIs(start: nat, now: nat)
    requires start <= now
    ensures Elapsed(Ticks32(start), Ticks32(now)) == (now - start) % WRAP
    ensures now - start < WRAP ==> (now - start) % WRAP == now - start
    ensures now - start < WRAP && Ticks32(start) <= Ticks32(now) ==> Overflows(now) == Overflows(start)
  {
    var a: int, b: int, c: int, d: int := start / WRAP, Ticks32(start), now / WRAP, Ticks32(now);
    assert start == a * WRAP + b && now == c * WRAP + d;
    assert now - start == (c - a) * WRAP + (d - b);
    if now - start < WRAP && b <= d {
      assert a == c;
    }
  }

  /** A concrete blind spot: ten ticks are exceeded by a whole round and go unreported. */
  lemma BlindExample()
    ensures !CheckedAt(Armed(WRAP - 1, 10), 2 * WRAP + 2).0
  {
    ElapsedIs(WRAP - 1, 2 * WRAP + 2);
  }

  /** The tick count wraps at most once from each call to the next. */
  ghost predicate Spaced(start: nat, times: seq<nat>)
    decreases |times|
  {
    times == [] ||
    (start <= times[0] && times[0] / WRAP <= start / WRAP + 1 && Spaced(times[0], times[1..]))
  }

  /** The number of calls that report no time-out, up to the first that does. */
  ghost function Unreported(w: Wait, times: seq<nat>): (i: nat)
    ensures i <= |times|
    decreases |times|
  {
    if times == [] || CheckedAt(w, times[0]).0 then 0
    else 1 + Unreported(CheckedAt(w, times[0]).1, times[1..])
  }

  /** With at most one wrap, the start and the ticks to wait always add up to the deadline. */
  lemma DeadlineConserved(start: nat, ticks: nat, now: nat)
    requires start <= now && now / WRAP <= start / WRAP + 1 && ticks < MAX_DELAY
    ensures CheckedAt(Armed(start, ticks), now).0 <==> start + ticks <= now
    ensures now < start + ticks ==> CheckedAt(Armed(start, ticks), now).1 == Armed(now, start + ticks - now)
  {
    CheckIsExact(start, ticks, now);
    ElapsedIs(start, now);
    assert !Blind(start, now);
  }

  /** Over any sequence of checks, the first to report a time-out is the first made at or
      after the deadline that was set at the start. */
  lemma {:induction false} FirstReportIsTheDeadline(start: nat, ticks: nat, times: seq<nat>)
    requires ticks < MAX_DELAY && Spaced(start, times)
    ensures var i := Unreported(Armed(start, ticks), times);
            && (forall k :: 0 <= k < i ==> times[k] < start + ticks)
            && (i < |times| ==> start + ticks <= times[i])
    decreases |times|
  {
    if times != [] {
      DeadlineConserved(start, ticks, times[0]);
      if times[0] < start + ticks {
        FirstReportIsTheDeadline(times[0], start + ticks - times[0], times[1..]);
        forall k | 0 <= k < Unreported(Armed(start, ticks), times) ensures times[k] < start + ticks {
          assert k > 0 ==> times[k] == times[1..][k - 1];
        }
      }
    }
  }

  /** Waiting for portMAX_DELAY never times out. */
  lemma {:induction false} ForeverIsForever(w: Wait, times: seq<nat>)
    requires w.ticksToWait == MAX_DELAY
    ensures Unreported(w, times) == |times|
    decreases |times|
  {
    if times != [] {
      ForeverIsForever(w, times[1..]);
    }
  }

  // The decision of vTaskDelayUntil, and the ticks it blocks for
  function DelayUntil(previous: nat, increment: nat, tick: nat): (r: (bool, nat))
    requires previous < WRAP && increment < WRAP && tick < WRAP
  {
    var wake := (previous + increment) % WRAP;
    (if tick < previous then wake < previous && wake > tick else wake < previous || wake > tick,
     (wake - tick) % WRAP)
  }

  /** vTaskDelayUntil blocks exactly until `increment` ticks after the previous wake time,
      and not at all when that is past, whatever has wrapped. */
  lemma DelayUntilIsPeriodic(previous: nat, increment: nat, now: nat)
    requires 1 <= increment < WRAP && previous <= now < previous + WRAP
    ensures var r := DelayUntil(Ticks32(previous), increment, Ticks32(now));
            && (r.0 <==> now < previous + increment)
            && (r.0 ==> r.1 == previous + increment - now)
            && (Ticks32(previous) + increment) % WRAP == Ticks32(previous + increment)
  {
    var a, b, c, d := previous / WRAP, Ticks32(previous), now / WRAP, Ticks32(now);
    assert previous == a * WRAP + b && now == c * WRAP + d;
    var e, f := (previous + increment) / WRAP, Ticks32(previous + increment);
    assert previous + increment == e * WRAP + f;
    assert (b + increment) % WRAP == f;
    assert c == a || c == a + 1;
    assert e == a || e == a + 1;
  }

  /** Nobody goes to sleep for 0 ticks: neither a wait that a check has not ended, nor a delay
      that vTaskDelayUntil has decided on. */
  lemma SleepsATick(w: Wait, tick: nat, overflows: nat, previous: nat, increment: nat)
    requires tick < WRAP && previous < WRAP && 1 <= increment < WRAP
    ensures !Checked(w, tick, overflows).0 ==> Checked(w, tick, overflows).1.ticksToWait >= 1
    ensures DelayUntil(previous, increment, tick).0 ==> DelayUntil(previous, increment, tick).1 >= 1
  {
  }
}
