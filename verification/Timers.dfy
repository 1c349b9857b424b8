/** The software timers of lib/FreeRTOS/timers.c, whose 32-bit expiry times are compared
    with modular arithmetic, against absolute time. */
module Timers {
  import opened Words

  type Id = nat

  datatype Timer = Timer(period: nat, autoReload: bool, active: bool)

  datatype Entry = Entry(id: Id, value: nat)

  /** The messages of the timer queue; all the start and reset commands act alike. */
  datatype Kind = Start | Stop | ChangePeriod | Delete

  datatype Command = Command(kind: Kind, id: Id, value: nat)

  // ------------------------------------------------------- where a timer must be put

  datatype Place = ProcessNow | InCurrent | InOverflow

  // The tests of prvInsertTimerInActiveList
  function PlaceOf(next: nat, tick: nat, command: nat, period: nat): Place {
    if next <= tick then
      if (tick - command) % WRAP >= period then ProcessNow else InOverflow
    else if tick < command && next >= command then ProcessNow
    else InCurrent
  }

  /** In absolute time, for a command less than 2^32 ticks old: the timer is processed at
      once if and only if it has expired, it goes on the current list if and only if it
      expires before the tick count next wraps, and else it expires before the wrap after. */
  lemma PlacementIsExact(command: nat, period: nat, now: nat)
    requires command <= now < command + WRAP && 1 <= period < WRAP
    ensures var p := PlaceOf((command + period) % WRAP, now % WRAP, command % WRAP, period);
            && (p == ProcessNow <==> command + period <= now)
            && (p == InCurrent <==> now < command + period && (command + period) / WRAP == now / WRAP)
            && (p == InOverflow ==> (command + period) / WRAP == now / WRAP + 1)
  {
    var a: int, b: int, c: int, d: int := command / WRAP, command % WRAP, now / WRAP, now % WRAP;
    var e: int, f: int := (command + period) / WRAP, (command + period) % WRAP;
    assert command == a * WRAP + b && now == c * WRAP + d && command + period == e * WRAP + f;
    assert c == a || c == a + 1;
    assert e == a || e == a + 1;
    assert (d - b) % WRAP == now - command;
  }

  // ------------------------------------------------------------------ lists of entries

  /** Where vListInsert puts a value. */
  function PositionFor(list: seq<Entry>, v: nat): (i: nat)
    ensures i <= |list|
    ensures forall k :: 0 <= k < i ==> list[k].value <= v
    ensures i < |list| ==> v < list[i].value
  {
    var values := seq(|list|, k requires 0 <= k < |list| => list[k].value);
    assert forall k {:trigger list[k]} :: 0 <= k < |list| ==> values[k] == list[k].value;
    InFrontOfLarger(values, v)
  }

  function Inserted(list: seq<Entry>, x: Entry): seq<Entry> {
    var p := PositionFor(list, x.value);
    list[..p] + [x] + list[p..]
  }

  /** uxListRemove on the list item of timer `id`, wherever it is. */
  function Unlinked(list: seq<Entry>, id: Id): seq<Entry> {
    if list == [] then []
    else if list[0].id == id then Unlinked(list[1..], id)
    else [list[0]] + Unlinked(list[1..], id)
  }

  ghost predicate InOrder(list: seq<Entry>) {
    && (forall x <- list :: x.value < WRAP)
    && forall i, j :: 0 <= i < j < |list| ==> list[i].value <= list[j].value
  }

  /** The expiry times at which timer `id` is on a list. */
  ghost function Times(list: seq<Entry>, id: Id): seq<nat> {
    if list == [] then []
    else (if list[0].id == id then [list[0].value] else []) + Times(list[1..], id)
  }

  lemma {:induction false} TimesSplit(a: seq<Entry>, b: seq<Entry>, id: Id)
    ensures Times(a + b, id) == Times(a, id) + Times(b, id)
  {
    if a == [] {
      assert a + b == b;
    } else {
      var first := if a[0].id == id then [a[0].value] else [];
      TimesSplit(a[1..], b, id);
      assert (a + b)[0] == a[0] && (a + b)[1..] == a[1..] + b;
      assert first + (Times(a[1..], id) + Times(b, id)) == (first + Times(a[1..], id)) + Times(b, id);
    }
  }

  lemma TimesInserted(list: seq<Entry>, x: Entry, id: Id)
    ensures x.id != id ==> Times(Inserted(list, x), id) == Times(list, id)
    ensures x.id == id && Times(list, id) == [] ==> Times(Inserted(list, x), id) == [x.value]
  {
    var p := PositionFor(list, x.value);
    TimesSplit(list[..p], list[p..], id);
    TimesSplit(list[..p], [x], id);
    TimesSplit(list[..p] + [x], list[p..], id);
    assert list[..p] + list[p..] == list;
    assert [x][1..] == [];
  }

  lemma {:induction false} UnlinkedTimes(list: seq<Entry>, id: Id, w: Id)
    ensures Times(Unlinked(list, id), w) == if id == w then [] else Times(list, w)
  {
    if list != [] {
      UnlinkedTimes(list[1..], id, w);
      var u := Unlinked(list[1..], id);
      assert ([list[0]] + u)[1..] == u;
    }
  }

  lemma {:induction false} UnlinkedMembers(list: seq<Entry>, id: Id)
    ensures forall x <- Unlinked(list, id) :: x in list
  {
    if list != [] {
      UnlinkedMembers(list[1..], id);
      assert forall x <- list[1..] :: x in list;
    }
  }

  lemma {:induction false} UnlinkedInOrder(list: seq<Entry>, id: Id)
    requires InOrder(list)
    ensures InOrder(Unlinked(list, id))
  {
    if list != [] {
      assert InOrder(list[1..]);
      UnlinkedInOrder(list[1..], id);
      UnlinkedMembers(list[1..], id);
      forall x | x in list[1..] ensures list[0].value <= x.value {}
    }
  }

  lemma InsertedMembers(list: seq<Entry>, x: Entry)
    ensures forall y :: y in Inserted(list, x) <==> y in list || y == x
  {
    var p := PositionFor(list, x.value);
    assert list == list[..p] + list[p..];
  }

  lemma InsertedInOrder(list: seq<Entry>, x: Entry)
    requires InOrder(list) && x.value < WRAP
    ensures InOrder(Inserted(list, x))
  {
    var p, l := PositionFor(list, x.value), Inserted(list, x);
    forall i | 0 <= i < |l| ensures l[i] == if i < p then list[i] else if i == p then x else list[i - 1] {}
    forall i, j | 0 <= i < j < |l| ensures l[i].value <= l[j].value {
      if i == p {
        assert list[p].value <= list[j - 1].value;
      }
    }
  }

  ghost function Pending(queue: seq<Command>, id: Id): seq<Command> {
    if queue == [] then []
    else (if queue[0].id == id then [queue[0]] else []) + Pending(queue[1..], id)
  }

  lemma {:induction false} PendingAdded(queue: seq<Command>, c: Command, id: Id)
    ensures Pending(queue + [c], id) == Pending(queue, id) + if c.id == id then [c] else []
  {
    var last := if c.id == id then [c] else [];
    if queue == [] {
      assert (queue + [c])[1..] == [] && Pending([], id) == [];
      assert Pending(queue + [c], id) == last;
    } else {
      var rest, first := queue[1..], if queue[0].id == id then [queue[0]] else [];
      PendingAdded(rest, c, id);
      assert (queue + [c])[1..] == rest + [c];
      assert first + (Pending(rest, id) + last) == (first + Pending(rest, id)) + last;
    }
  }

  // ---------------------------------------------------------- the watched timer

  /** The expiries of which the callbacks of timer `id` were called, in order. */
  ghost function Called(fired: seq<(Id, nat)>, id: Id): seq<nat> {
    if fired == [] then []
    else Called(fired[..|fired| - 1], id)
         + if fired[|fired| - 1].0 == id then [fired[|fired| - 1].1] else []
  }

  /** The expiry of call number `k + 1` of a timer started at `start`. */
  ghost function Due(start: nat, period: nat, k: nat): nat {
    start + (k + 1) * period
  }

  lemma DueNext(start: nat, period: nat, k: nat)
    ensures Due(start, period, k + 1) == Due(start, period, k) + period
    ensures Due(start, period, k) >= period
  {
    assert (k + 2) * period == (k + 1) * period + period;
  }

  ghost function Expiries(start: nat, period: nat, k: nat): seq<nat> {
    if k == 0 then [] else Expiries(start, period, k - 1) + [Due(start, period, k - 1)]
  }

  /** Timer `w` has been called for its first `k` expiries, and its next one is on record
      exactly once: on the current list if it lies in epoch `epoch` of the tick count, on the
      overflow list if in the next, or in a restart command that names the expiry before it.
      While the daemon has it in hand (`held`), it is nowhere. */
  ghost predicate OnRecord(in1: seq<nat>, in2: seq<nat>, in3: seq<Command>, called: seq<nat>, held: bool,
                           epoch: nat, w: Id, period: nat, start: nat, k: nat)
  {
    && called == Expiries(start, period, k)
    && if held then in1 == [] && in2 == [] && in3 == []
       else
         var due := Due(start, period, k);
         || (due / WRAP == epoch && in1 == [due % WRAP] && in2 == [] && in3 == [])
         || (due / WRAP == epoch + 1 && in1 == [] && in2 == [due % WRAP] && in3 == [])
         || (in1 == [] && in2 == [] && in3 == [Command(Start, w, (due - period) % WRAP)])
  }

  ghost predicate Tracked(held: bool, current: seq<Entry>, overflow: seq<Entry>, queue: seq<Command>,
                          fired: seq<(Id, nat)>, epoch: nat, w: Id, period: nat, start: nat, k: nat)
  {
    OnRecord(Times(current, w), Times(overflow, w), Pending(queue, w), Called(fired, w), held,
             epoch, w, period, start, k)
  }

  lemma CalledMore(fired: seq<(Id, nat)>, id: Id, due: nat, w: Id)
    ensures Called(fired + [(id, due)], w) == Called(fired, w) + if id == w then [due] else []
  {
    assert (fired + [(id, due)])[..|fired|] == fired;
  }

  /** The timer at the head of the current list is called; if it is the watched one, this is
      the call for its next expiry. */
  lemma HeadCalled(held: bool, current: seq<Entry>, overflow: seq<Entry>, queue: seq<Command>, fired: seq<(Id, nat)>,
                   epoch: nat, w: Id, period: nat, start: nat, k: nat)
    requires Tracked(held, current, overflow, queue, fired, epoch, w, period, start, k) && current != []
    ensures var x := current[0];
            var fired': seq<(Id, nat)> := fired + [(x.id, epoch * WRAP + x.value)];
            if x.id == w then
              && !held && epoch * WRAP + x.value == Due(start, period, k) && x.value < WRAP
              && Tracked(true, current[1..], overflow, queue, fired', epoch, w, period, start, k + 1)
            else Tracked(held, current[1..], overflow, queue, fired', epoch, w, period, start, k)
  {
    var x := current[0];
    CalledMore(fired, x.id, epoch * WRAP + x.value, w);
    if x.id == w {
      assert [x.value] + Times(current[1..], w) == Times(current, w);
      assert Times(current, w)[0] == x.value;
    }
  }

  /** The daemon puts the watched timer where its next expiry belongs. */
  lemma PutBack(current: seq<Entry>, overflow: seq<Entry>, queue: seq<Command>, fired: seq<(Id, nat)>,
                epoch: nat, w: Id, period: nat, start: nat, k: nat)
    requires Tracked(true, current, overflow, queue, fired, epoch, w, period, start, k)
    ensures var due := Due(start, period, k);
            && due >= period
            && (due / WRAP == epoch ==>
                  Tracked(false, Inserted(current, Entry(w, due % WRAP)), overflow, queue,
                          fired, epoch, w, period, start, k))
            && (due / WRAP == epoch + 1 ==>
                  Tracked(false, current, Inserted(overflow, Entry(w, due % WRAP)), queue,
                          fired, epoch, w, period, start, k))
            && Tracked(false, current, overflow, queue + [Command(Start, w, (due - period) % WRAP)], fired,
                       epoch, w, period, start, k)
  {
    hide Inserted;
    var due := Due(start, period, k);
    DueNext(start, period, k);
    TimesInserted(current, Entry(w, due % WRAP), w);
    TimesInserted(overflow, Entry(w, due % WRAP), w);
    PendingAdded(queue, Command(Start, w, (due - period) % WRAP), w);
  }

  /** What happens to other timers does not matter. */
  lemma OthersMove(held: bool, current: seq<Entry>, overflow: seq<Entry>, queue: seq<Command>, fired: seq<(Id, nat)>,
                   epoch: nat, w: Id, period: nat, start: nat, k: nat, x: Entry, c: Command)
    requires Tracked(held, current, overflow, queue, fired, epoch, w, period, start, k) && x.id != w && c.id != w
    ensures Tracked(held, Inserted(current, x), overflow, queue, fired, epoch, w, period, start, k)
    ensures Tracked(held, current, Inserted(overflow, x), queue, fired, epoch, w, period, start, k)
    ensures Tracked(held, current, overflow, queue + [c], fired, epoch, w, period, start, k)
  {
    TimesInserted(current, x, w);
    TimesInserted(overflow, x, w);
    PendingAdded(queue, c, w);
  }

  /** With the current list empty, the lists can change places at a wrap; with both empty,
      it does not matter how many wraps there were. */
  lemma ListsSwitched(held: bool, overflow: seq<Entry>, queue: seq<Command>, fired: seq<(Id, nat)>,
                      epoch: nat, epoch': nat, w: Id, period: nat, start: nat, k: nat)
    requires Tracked(held, [], overflow, queue, fired, epoch, w, period, start, k)
    requires epoch' == epoch + 1 || overflow == []
    ensures Tracked(held, overflow, [], queue, fired, epoch', w, period, start, k)
  {
  }

  // ------------------------------------------------------------- timers not on record

  /** Timer `id` is on no list, and no command for it is pending. */
  ghost predicate Absent(current: seq<Entry>, overflow: seq<Entry>, queue: seq<Command>, id: Id) {
    Times(current, id) == [] && Times(overflow, id) == [] && Pending(queue, id) == []
  }

  /** Of the timers, but for those of `but`, the absent ones stay absent, and are not called. */
  ghost predicate Silent(current: seq<Entry>, overflow: seq<Entry>, queue: seq<Command>, fired: seq<(Id, nat)>,
                         current': seq<Entry>, overflow': seq<Entry>, queue': seq<Command>, fired': seq<(Id, nat)>,
                         but: set<Id>)
  {
    forall id {:trigger Absent(current, overflow, queue, id)} :: id !in but && Absent(current, overflow, queue, id) ==>
      Absent(current', overflow', queue', id) && Called(fired', id) == Called(fired, id)
  }

  lemma SilentThen(c: seq<Entry>, o: seq<Entry>, q: seq<Command>, f: seq<(Id, nat)>,
                   c1: seq<Entry>, o1: seq<Entry>, q1: seq<Command>, f1: seq<(Id, nat)>,
                   c2: seq<Entry>, o2: seq<Entry>, q2: seq<Command>, f2: seq<(Id, nat)>, but: set<Id>)
    requires Silent(c, o, q, f, c1, o1, q1, f1, but) && Silent(c1, o1, q1, f1, c2, o2, q2, f2, but)
    ensures Silent(c, o, q, f, c2, o2, q2, f2, but)
  {
    hide Absent;
  }

  lemma StaysSilent(c: seq<Entry>, o: seq<Entry>, q: seq<Command>, f: seq<(Id, nat)>)
    ensures Silent(c, o, q, f, c, o, q, f, {})
  {
  }

  lemma SilentSwitched(c: seq<Entry>, o: seq<Entry>, q: seq<Command>, f: seq<(Id, nat)>,
                       c': seq<Entry>, o': seq<Entry>, q': seq<Command>, f': seq<(Id, nat)>)
    requires Silent(c, o, q, f, c', o', q', f', {})
    ensures Silent(c, o, q, f, o', c', q', f', {})
  {
  }

  lemma SilentBut(c: seq<Entry>, o: seq<Entry>, q: seq<Command>, f: seq<(Id, nat)>,
                  c': seq<Entry>, o': seq<Entry>, q': seq<Command>, f': seq<(Id, nat)>, id: Id)
    requires Silent(c, o, q, f, c', o', q', f', {})
    ensures Silent(c, o, q, f, c', o', q', f', {id})
    ensures Absent(c, o, q, id) ==> Absent(c', o', q', id)
  {
  }

  lemma NowAbsent(current: seq<Entry>, overflow: seq<Entry>, queue: seq<Command>, id: Id)
    requires queue != []
    ensures Pending(queue[1..], id) == [] ==> Absent(Unlinked(current, id), Unlinked(overflow, id), queue[1..], id)
  {
    UnlinkedTimes(current, id, id);
    UnlinkedTimes(overflow, id, id);
  }

  /** Timer `x.id` is called, goes on a list, or has a command sent for it; nobody else is
      affected. */
  lemma OthersSilent(current: seq<Entry>, overflow: seq<Entry>, queue: seq<Command>, fired: seq<(Id, nat)>,
                     x: Entry, c: Command, due: nat)
    requires c.id == x.id
    ensures Silent(current, overflow, queue, fired, current, overflow, queue, fired + [(x.id, due)], {x.id})
    ensures Silent(current, overflow, queue, fired, Inserted(current, x), overflow, queue, fired, {x.id})
    ensures Silent(current, overflow, queue, fired, current, Inserted(overflow, x), queue, fired, {x.id})
    ensures Silent(current, overflow, queue, fired, current, overflow, queue + [c], fired, {x.id})
    ensures Silent(current, overflow, queue, fired, Inserted(current, x), overflow, queue, fired + [(x.id, due)],
                   {x.id})
    ensures Silent(current, overflow, queue, fired, current, Inserted(overflow, x), queue, fired + [(x.id, due)],
                   {x.id})
    ensures Silent(current, overflow, queue, fired, current, overflow, queue + [c], fired + [(x.id, due)], {x.id})
  {
    hide Inserted, Called, Pending, Times;
    forall id | id != x.id && Absent(current, overflow, queue, id)
      ensures Times(Inserted(current, x), id) == [] && Times(Inserted(overflow, x), id) == []
              && Pending(queue + [c], id) == [] && Called(fired + [(x.id, due)], id) == Called(fired, id)
    {
      TimesInserted(current, x, id);
      TimesInserted(overflow, x, id);
      PendingAdded(queue, c, id);
      CalledMore(fired, x.id, due, id);
    }
  }

  /** What concerns only the timer at the head of the current list concerns no absent timer. */
  lemma HeadIsNotAbsent(current: seq<Entry>, overflow: seq<Entry>, queue: seq<Command>, fired: seq<(Id, nat)>,
                        c': seq<Entry>, o': seq<Entry>, q': seq<Command>, f': seq<(Id, nat)>)
    requires current != []
    requires Silent(current[1..], overflow, queue, fired, c', o', q', f', {current[0].id})
    ensures Silent(current, overflow, queue, fired, c', o', q', f', {})
  {
    forall id | Absent(current, overflow, queue, id)
      ensures id != current[0].id && Absent(current[1..], overflow, queue, id)
    {
    }
  }

  /** The same for the timer of the command that is taken off the queue. */
  lemma CommandIsNotAbsent(current: seq<Entry>, overflow: seq<Entry>, queue: seq<Command>, fired: seq<(Id, nat)>,
                           c': seq<Entry>, o': seq<Entry>, q': seq<Command>, f': seq<(Id, nat)>)
    requires queue != []
    requires var id := queue[0].id;
             Silent(Unlinked(current, id), Unlinked(overflow, id), queue[1..], fired, c', o', q', f', {id})
    ensures Silent(current, overflow, queue, fired, c', o', q', f', {})
  {
    var c := queue[0];
    forall id | Absent(current, overflow, queue, id)
      ensures id != c.id && Absent(Unlinked(current, c.id), Unlinked(overflow, c.id), queue[1..], id)
    {
      UnlinkedTimes(current, c.id, id);
      UnlinkedTimes(overflow, c.id, id);
    }
  }

  ghost function Slack(list: seq<Entry>): nat {
    if list == [] then 0 else (if list[0].value < WRAP then WRAP - list[0].value else 0) + Slack(list[1..])
  }

  lemma TailInOrder(list: seq<Entry>)
    requires InOrder(list) && list != []
    ensures InOrder(list[1..]) && list[0].value < WRAP && forall x <- list[1..] :: list[0].value <= x.value
    ensures Slack(list) == WRAP - list[0].value + Slack(list[1..])
  {
  }

  lemma {:induction false} SlackSplit(a: seq<Entry>, b: seq<Entry>)
    ensures Slack(a + b) == Slack(a) + Slack(b)
  {
    if a == [] {
      assert a + b == b;
    } else {
      assert (a + b)[1..] == a[1..] + b;
      SlackSplit(a[1..], b);
    }
  }

  lemma SlackInserted(list: seq<Entry>, x: Entry)
    requires x.value < WRAP
    ensures Slack(Inserted(list, x)) == Slack(list) + WRAP - x.value
  {
    var p := PositionFor(list, x.value);
    SlackSplit(list[..p], list[p..]);
    SlackSplit(list[..p], [x]);
    SlackSplit(list[..p] + [x], list[p..]);
    assert list[..p] + list[p..] == list;
    assert [x][1..] == [];
  }

  ghost predicate ListOk(list: seq<Entry>, ids: set<Id>) {
    InOrder(list) && forall x <- list :: x.id in ids
  }

  ghost predicate QueueOk(queue: seq<Command>, ids: set<Id>) {
    forall c <- queue :: c.id in ids && c.value < WRAP
  }

  ghost predicate PeriodsOk(timers: map<Id, Timer>) {
    forall t <- timers :: 1 <= timers[t].period < WRAP
  }

  lemma HeadOk(list: seq<Entry>, timers: map<Id, Timer>)
    requires ListOk(list, timers.Keys) && list != [] && PeriodsOk(timers)
    ensures var x := list[0];
            && ListOk(list[1..], timers.Keys) && x.id in timers && x.value < WRAP
            && 1 <= timers[x.id].period < WRAP
            && Slack(list) == WRAP - x.value + Slack(list[1..])
  {
    TailInOrder(list);
  }

  lemma InsertedOk(list: seq<Entry>, x: Entry, ids: set<Id>)
    requires ListOk(list, ids) && x.id in ids && x.value < WRAP
    ensures ListOk(Inserted(list, x), ids) && Slack(Inserted(list, x)) == Slack(list) + WRAP - x.value
  {
    InsertedInOrder(list, x);
    InsertedMembers(list, x);
    SlackInserted(list, x);
  }

  lemma UnlinkedOk(list: seq<Entry>, id: Id, ids: set<Id>)
    requires ListOk(list, ids)
    ensures ListOk(Unlinked(list, id), ids)
  {
    UnlinkedInOrder(list, id);
    UnlinkedMembers(list, id);
  }

  lemma QueuedOk(queue: seq<Command>, c: Command, ids: set<Id>)
    requires QueueOk(queue, ids) && c.id in ids && c.value < WRAP
    ensures QueueOk(queue + [c], ids)
  {
  }

  /** The timer service task. One auto-reload timer is watched: no other task sends commands
      for it. */
  class Daemon {
    var timers: map<Id, Timer>
    var current: seq<Entry>            // pxCurrentTimerList
    var overflow: seq<Entry>           // pxOverflowTimerList
    var queue: seq<Command>            // xTimerQueue
    var lastTime: nat                  // xLastTime
    ghost var last: nat                // the absolute tick of that sample
    ghost var fired: seq<(Id, nat)>    // the callbacks made, with the expiries they belong to
    ghost const watched: Id
    ghost const period: nat
    ghost const start: nat
    ghost var calls: nat               // of the watched timer
    ghost var held: bool               // the daemon has the watched timer in hand

    // prvCheckForValidListAndQueue, and xTimerStart on timer `watched` at tick `start`
    constructor (timers: map<Id, Timer>, watched: Id, start: nat)
      requires PeriodsOk(timers) && watched in timers && timers[watched].autoReload
      ensures Valid() && OnTrack() && !held && NeverEarly() && OverflowBehind()
      ensures last == 0 && calls == 0 && fired == [] && queue == [Command(Start, watched, start % WRAP)]
      ensures this.watched == watched && this.start == start && period == timers[watched].period
    {
      this.timers, current, overflow := timers, [], [];
      queue := [Command(Start, watched, start % WRAP)];
      lastTime, last, fired, calls, held := 0, 0, [], 0, false;
      this.watched, this.period, this.start := watched, timers[watched].period, start;
      new;
      DueNext(start, period, 0);
      assert Due(start, period, 0) == start + period;
      assert Pending(queue[1..], watched) == [];
    }

    ghost predicate Valid()
      reads this
    {
      && ListOk(current, timers.Keys) && ListOk(overflow, timers.Keys) && QueueOk(queue, timers.Keys)
      && PeriodsOk(timers) && lastTime == last % WRAP
      && watched in timers && timers[watched].autoReload && 1 <= timers[watched].period == period < WRAP
    }

    ghost predicate OnTrack()
      reads this
    {
      Tracked(held, current, overflow, queue, fired, last / WRAP, watched, period, start, calls)
    }

    /** No callback was made before its expiry. */
    ghost predicate NeverEarly()
      reads `fired, `last
    {
      forall f <- fired :: f.1 <= last
    }

    /** The callbacks of the watched timer made are those of exactly the expiries up to `last`. */
    ghost predicate UpToDate()
      reads this
    {
      && |Called(fired, watched)| == calls
      && forall j: nat {:trigger Due(start, period, j)} :: j < calls <==> Due(start, period, j) <= last
    }

    /** What is on the overflow list expires less than one round after the last sample. */
    ghost predicate OverflowBehind()
      reads `overflow, `lastTime
    {
      forall x <- overflow :: x.value < lastTime
    }

    // xTaskGetTickCount has returned `tick`, at absolute tick `now`
    ghost predicate Timely(tick: nat, now: nat)
      reads `last, `current, `overflow
    {
      tick == now % WRAP && last <= now && (now < last + WRAP || (current == [] && overflow == []))
    }

    // A pass of the loop of prvSwitchTimerLists
    method ReloadHead()
      requires Valid() && OnTrack() && current != []
      modifies `current, `queue, `fired, `calls
      ensures Valid() && OnTrack() && Slack(current) < old(Slack(current))
      ensures fired == old(fired) + [(old(current)[0].id, last / WRAP * WRAP + old(current)[0].value)]
      ensures calls == old(calls) + if old(current)[0].id == watched then 1 else 0
      ensures held ==> calls == old(calls)
      ensures Silent(old(current), overflow, old(queue), old(fired), current, overflow, queue, fired, {})
      ensures old(current)[0].id in timers
      ensures var x := old(current)[0];
              var reload := (x.value + timers[x.id].period) % WRAP;
              if !timers[x.id].autoReload then current == old(current)[1..] && queue == old(queue)
              else if reload > x.value then
                current == Inserted(old(current)[1..], Entry(x.id, reload)) && queue == old(queue)
              else current == old(current)[1..] && queue == old(queue) + [Command(Start, x.id, x.value)]
    {
      hide Tracked, Inserted, ListOk, QueueOk, PeriodsOk, Silent;
      var x := current[0];
      var next := x.value;
      HeadOk(current, timers);
      var reload := (next + timers[x.id].period) % WRAP;
      Reloaded(held, current, overflow, queue, fired, last / WRAP, watched, period, start, calls, reload);
      OthersSilent(current[1..], overflow, queue, fired, Entry(x.id, reload), Command(Start, x.id, next),
                   last / WRAP * WRAP + next);
      InsertedOk(current[1..], Entry(x.id, reload), timers.Keys);
      QueuedOk(queue, Command(Start, x.id, next), timers.Keys);
      current := current[1..];
      fired := fired + [(x.id, last / WRAP * WRAP + next)];  // the callback
      calls := calls + if x.id == watched then 1 else 0;
      if timers[x.id].autoReload {
        if reload > next {
          current := Inserted(current, Entry(x.id, reload));
        } else {
          queue := queue + [Command(Start, x.id, next)];
        }
      }
      HeadIsNotAbsent(old(current), overflow, old(queue), old(fired), current, overflow, queue, fired);
    }

    // prvSwitchTimerLists
    method SwitchTimerLists()
      requires Valid() && OnTrack()
      modifies `current, `overflow, `queue, `fired, `calls
      ensures Valid() && current == old(overflow) && overflow == []
      ensures calls >= old(calls) && (held ==> calls == old(calls))
      ensures forall epoch: nat :: epoch == last / WRAP + 1 || current == [] ==>
                Tracked(held, current, overflow, queue, fired, epoch, watched, period, start, calls)
      ensures forall f <- fired :: f in old(fired) || f.1 < (last / WRAP + 1) * WRAP
      ensures Silent(old(current), old(overflow), old(queue), old(fired), current, overflow, queue, fired, {})
    {
      hide Tracked, ListOk, QueueOk, PeriodsOk, Silent, Absent;
      ghost var c, o, q, f := current, overflow, queue, fired;
      StaysSilent(c, o, q, f);
      while current != []
        invariant Valid() && OnTrack() && overflow == old(overflow)
        invariant calls >= old(calls) && (held ==> calls == old(calls))
        invariant forall f <- fired :: f in old(fired) || f.1 < (last / WRAP + 1) * WRAP
        invariant Silent(c, o, q, f, current, overflow, queue, fired, {})
        decreases Slack(current)
      {
        HeadOk(current, timers);
        ghost var c1, q1, f1 := current, queue, fired;
        ReloadHead();
        SilentThen(c, o, q, f, c1, o, q1, f1, current, o, queue, fired, {});
      }
      SilentSwitched(c, o, q, f, current, overflow, queue, fired);
      forall epoch: nat | epoch == last / WRAP + 1 || overflow == []
        ensures Tracked(held, overflow, [], queue, fired, epoch, watched, period, start, calls)
      {
        ListsSwitched(held, overflow, queue, fired, last / WRAP, epoch, watched, period, start, calls);
      }
      current, overflow := overflow, current;
    }

    // prvSampleTimeNow
    method SampleTimeNow(tick: nat, ghost now: nat) returns (switched: bool)
      requires Valid() && OnTrack() && NeverEarly() && Timely(tick, now)
      modifies `current, `overflow, `queue, `fired, `calls, `last, `lastTime
      ensures Valid() && OnTrack() && NeverEarly() && last == now
      ensures old(OverflowBehind()) ==> OverflowBehind()
      ensures calls >= old(calls) && (held ==> calls == old(calls))
      ensures switched ==> current == old(overflow) && overflow == []
      ensures !switched ==> current == old(current) && overflow == old(overflow) && queue == old(queue)
                            && fired == old(fired) && calls == old(calls)
      ensures old(last) / WRAP == now / WRAP ==> !switched
      ensures Silent(old(current), old(overflow), old(queue), old(fired), current, overflow, queue, fired, {})
    {
      hide Tracked, ListOk, QueueOk, PeriodsOk, Silent;
      StaysSilent(current, overflow, queue, fired);
      if tick < lastTime {
        SwitchTimerLists();
        switched := true;
      } else {
        if current == [] && overflow == [] {
          ListsSwitched(held, overflow, queue, fired, last / WRAP, now / WRAP, watched, period, start, calls);
        }
        switched := false;
      }
      last := now;
      lastTime := tick;
    }

    // prvInsertTimerInActiveList
    method InsertTimerInActiveList(id: Id, next: nat, tick: nat, command: nat) returns (processNow: bool)
      requires Valid() && id in timers && next < WRAP
      modifies `current, `overflow
      ensures Valid()
      ensures var place := PlaceOf(next, tick, command, timers[id].period);
              && (processNow <==> place == ProcessNow)
              && current == (if place == InCurrent then Inserted(old(current), Entry(id, next)) else old(current))
              && overflow == (if place == InOverflow then Inserted(old(overflow), Entry(id, next)) else old(overflow))
      ensures next == (command + timers[id].period) % WRAP && tick == lastTime && old(OverflowBehind()) ==>
                OverflowBehind()
    {
      hide Inserted, ListOk, QueueOk, PeriodsOk;
      var x := Entry(id, next);
      InsertedBehind(overflow, x, tick, command, timers[id].period);
      PeriodOf(timers, id);
      InsertedOk(current, x, timers.Keys);
      InsertedOk(overflow, x, timers.Keys);
      processNow := false;
      if next <= tick {
        if (tick - command) % WRAP >= timers[id].period {
          processNow := true;
        } else {
          overflow := Inserted(overflow, x);
        }
      } else {
        if tick < command && next >= command {
          processNow := true;
        } else {
          current := Inserted(current, x);
        }
      }
    }

    // The active bit of ucStatus
    method SetActive(id: Id, active: bool)
      requires Valid() && id in timers
      modifies `timers
      ensures Valid() && timers == old(timers)[id := old(timers)[id].(active := active)]
    {
      timers := timers[id := timers[id].(active := active)];
      assert timers.Keys == old(timers).Keys;
    }

    // The branches of prvProcessExpiredTimer, for timer `x` taken off the current list
    method Rearm(x: Entry, tick: nat, ghost due: nat, ghost k: nat)
      requires Valid() && x.id in timers && x.value < WRAP && tick == lastTime
      requires var next := (x.value + timers[x.id].period) % WRAP;
               GoesOn(held, current, overflow, queue, fired + [(x.id, due)], last / WRAP, watched, period, start, k,
                      x, next, PlaceOf(next, tick, x.value, timers[x.id].period))
      modifies `current, `overflow, `queue, `timers
      ensures Valid()
      ensures Tracked(held, current, overflow, queue, fired + [(x.id, due)], last / WRAP, watched, period, start, k)
      ensures old(OverflowBehind()) ==> OverflowBehind()
      ensures Silent(old(current), old(overflow), old(queue), fired, current, overflow, queue, fired + [(x.id, due)],
                     {x.id})
      ensures !old(timers)[x.id].autoReload ==>
                && current == old(current) && overflow == old(overflow) && queue == old(queue)
                && timers == old(timers)[x.id := old(timers)[x.id].(active := false)]
      ensures old(timers)[x.id].autoReload ==>
                && timers == old(timers)
                && var next := (x.value + timers[x.id].period) % WRAP;
                   match PlaceOf(next, tick, x.value, timers[x.id].period)
                   case ProcessNow =>
                     && current == old(current) && overflow == old(overflow)
                     && queue == old(queue) + [Command(Start, x.id, x.value)]
                   case InCurrent =>
                     && current == Inserted(old(current), Entry(x.id, next)) && overflow == old(overflow)
                     && queue == old(queue)
                   case InOverflow =>
                     && current == old(current) && overflow == Inserted(old(overflow), Entry(x.id, next))
                     && queue == old(queue)
    {
      hide Tracked, Inserted, ListOk, QueueOk, PeriodsOk, PlaceOf, Silent;
      QueuedOk(queue, Command(Start, x.id, x.value), timers.Keys);
      OthersSilent(current, overflow, queue, fired, Entry(x.id, (x.value + timers[x.id].period) % WRAP),
                   Command(Start, x.id, x.value), due);
      if timers[x.id].autoReload {
        var processNow :=
          InsertTimerInActiveList(x.id, (x.value + timers[x.id].period) % WRAP, tick, x.value);
        if processNow {
          queue := queue + [Command(Start, x.id, x.value)];
        }
      } else {
        SetActive(x.id, false);
      }
    }

    // prvProcessExpiredTimer
    method ProcessExpiredTimer(next: nat, tick: nat)
      requires Valid() && OnTrack() && NeverEarly() && tick == last % WRAP
      requires current != [] && next == current[0].value <= tick
      modifies `current, `overflow, `queue, `fired, `calls, `timers
      ensures Valid() && OnTrack() && NeverEarly() && (old(OverflowBehind()) ==> OverflowBehind())
      ensures fired == old(fired) + [(old(current)[0].id, last / WRAP * WRAP + next)]
      ensures calls == old(calls) + if old(current)[0].id == watched then 1 else 0
      ensures Silent(old(current), old(overflow), old(queue), old(fired), current, overflow, queue, fired, {})
      ensures old(current)[0].id in old(timers)
      ensures var id := old(current)[0].id;
              !old(timers)[id].autoReload ==>
                && current == old(current)[1..] && overflow == old(overflow) && queue == old(queue)
                && timers == old(timers)[id := old(timers)[id].(active := false)]
    {
      hide Tracked, GoesOn, ListOk, QueueOk, PeriodsOk, PlaceOf, Silent;
      var x := current[0];
      HeadOk(current, timers);
      Expired(held, current, overflow, queue, fired, last / WRAP, watched, period, start, calls, tick,
              timers[x.id].period);
      current := current[1..];
      ghost var more: seq<(Id, nat)> := fired + [(x.id, last / WRAP * WRAP + next)];
      ghost var k := calls + if x.id == watched then 1 else 0;
      Rearm(x, tick, last / WRAP * WRAP + next, k);
      HeadIsNotAbsent(old(current), old(overflow), old(queue), old(fired), current, overflow, queue, more);
      fired, calls := more, k;  // the callback
    }

    // prvGetNextExpireTime, then prvProcessTimerOrBlockTask: a pass of the loop of prvTimerTask.
    // If the daemon is to block, then for `ticks`, or for ever
    method ProcessTimerOrBlock(tick: nat, ghost now: nat) returns (blocks: bool, ticks: nat, forever: bool)
      requires Valid() && OnTrack() && NeverEarly() && Timely(tick, now)
      modifies `current, `overflow, `queue, `fired, `calls, `timers, `last, `lastTime
      ensures Valid() && OnTrack() && NeverEarly() && last == now
      ensures old(OverflowBehind()) ==> OverflowBehind() && (blocks && !forever ==> ticks >= 1)
      ensures blocks ==> fired == old(fired) && calls == old(calls)
      ensures old(last) / WRAP == now / WRAP ==>
        && (blocks <==> old(current) == [] || now % WRAP < old(current)[0].value)
        && (!blocks ==> fired == old(fired) + [(old(current)[0].id, now / WRAP * WRAP + old(current)[0].value)])
      ensures blocks && forever ==> current == [] && overflow == []
      ensures blocks && !forever ==> WakesInTime(current, now / WRAP, now, ticks)
                                     && WakesInTime(overflow, now / WRAP + 1, now, ticks)
      ensures blocks && !held && Pending(queue, watched) == [] ==>
                !forever && UpToDate() && now + ticks <= Due(start, period, calls)
      ensures Silent(old(current), old(overflow), old(queue), old(fired), current, overflow, queue, fired, {})
    {
      hide Silent;
      hide UpToDate, Due, Pending, Called;
      hide Tracked, QueueOk, PeriodsOk;
      var empty := current == [];
      var next := if empty then 0 else current[0].value;
      var switched := SampleTimeNow(tick, now);
      blocks, ticks, forever := false, 0, false;
      if !switched {
        if !empty && next <= tick {
          ghost var c, o, q, f := current, overflow, queue, fired;
          ProcessExpiredTimer(next, tick);
          SilentThen(old(current), old(overflow), old(queue), old(fired), c, o, q, f,
                     current, overflow, queue, fired, {});
        } else {
          forever := if empty then overflow == [] else false;
          ticks := (next - tick) % WRAP;
          blocks := true;
          BlockTime(current, overflow, now, ticks);
          if !held && Pending(queue, watched) == [] {
            EveryExpiryIsCalled(this, now, ticks);
          }
        }
      }
    }

    // Another task, or an interrupt, sends a command for another timer
    method SendCommand(c: Command)
      requires Valid() && OnTrack() && c.id in timers && c.id != watched && c.value < WRAP
      modifies `queue
      ensures Valid() && OnTrack() && queue == old(queue) + [c]
    {
      hide ListOk, PeriodsOk;
      OthersMove(held, current, overflow, queue, fired, last / WRAP, watched, period, start, calls, Entry(c.id, 0), c);
      queue := queue + [c];
    }

    // The branch of prvProcessReceivedCommands that starts or restarts a timer
    method StartTimer(id: Id, command: nat, tick: nat)
      requires Valid() && NeverEarly() && tick == last % WRAP && id in timers && command < WRAP
      requires Tracked(id == watched, current, overflow, queue, fired, last / WRAP, watched, period, start, calls)
      requires IssuedAt(command, last) >= 0
      requires id == watched ==> IssuedAt(command, last) == Due(start, period, calls) - period
      modifies `timers, `current, `overflow, `queue, `fired, `calls
      ensures Valid() && NeverEarly()
      ensures Tracked(false, current, overflow, queue, fired, last / WRAP, watched, period, start, calls)
      ensures calls >= old(calls) && (old(OverflowBehind()) ==> OverflowBehind())
      ensures Silent(old(current), old(overflow), old(queue), old(fired), current, overflow, queue, fired, {id})
      ensures !old(timers)[id].autoReload ==> queue == old(queue)
      ensures var next := (command + old(timers)[id].period) % WRAP;
              match PlaceOf(next, tick, command, old(timers)[id].period)
              case ProcessNow =>
                && current == old(current) && overflow == old(overflow)
                && fired == old(fired) + [(id, IssuedAt(command, last) + old(timers)[id].period)]
                && queue == old(queue) + if old(timers)[id].autoReload then [Command(Start, id, next)] else []
              case InCurrent =>
                && current == Inserted(old(current), Entry(id, next)) && overflow == old(overflow)
                && fired == old(fired) && queue == old(queue)
              case InOverflow =>
                && current == old(current) && overflow == Inserted(old(overflow), Entry(id, next))
                && fired == old(fired) && queue == old(queue)
      ensures timers == old(timers)[id := old(timers)[id].(active := true)]
    {
      hide Tracked, Inserted, ListOk, QueueOk, PeriodsOk, PlaceOf, Due, Silent;
      SetActive(id, true);
      var next := (command + timers[id].period) % WRAP;
      PeriodOf(timers, id);
      ghost var due := IssuedAt(command, last) + timers[id].period;
      Started(current, overflow, queue, fired, watched, period, start, calls, id, command, timers[id].period, last);
      OthersSilent(current, overflow, queue, fired, Entry(id, next), Command(Start, id, next), due);
      QueuedOk(queue, Command(Start, id, next), timers.Keys);
      var processNow := InsertTimerInActiveList(id, next, tick, command);
      if processNow {
        fired := fired + [(id, due)];  // the callback
        calls := calls + if id == watched then 1 else 0;
        if timers[id].autoReload {
          queue := queue + [Command(Start, id, next)];
        }
      }
    }

    // A pass of the loop of prvProcessReceivedCommands, for a timer command
    method ProcessReceivedCommand(tick: nat, ghost now: nat)
      requires Valid() && OnTrack() && !held && NeverEarly() && Timely(tick, now) && queue != []
      requires IssuedAt(queue[0].value, now) >= 0
      requires queue[0].kind == ChangePeriod ==> queue[0].value > 0  // its configASSERT
      requires queue[0].id == watched ==>
                 Due(start, period, calls) - period <= now < Due(start, period, calls) - period + WRAP
      modifies this
      ensures Valid() && OnTrack() && !held && NeverEarly() && last == now
      ensures calls >= old(calls) && (old(OverflowBehind()) ==> OverflowBehind())
      ensures Silent(old(current), old(overflow), old(queue), old(fired), current, overflow, queue, fired, {})
      ensures old(queue)[0].kind in {Stop, Kind.Delete} ==>
                var id := old(queue)[0].id;
                && (Pending(old(queue)[1..], id) == [] ==> Absent(current, overflow, queue, id))
    {
      hide Silent, Absent, Tracked, Inserted, ListOk, QueueOk, PeriodsOk, Due, Unlinked, Times, Pending;
      var c := queue[0];
      CommandTaken(current, overflow, queue, fired, last / WRAP, watched, period, start, calls, timers.Keys);
      UnlinkedMembers(overflow, c.id);
      NowAbsent(current, overflow, queue, c.id);
      queue := queue[1..];
      current, overflow := Unlinked(current, c.id), Unlinked(overflow, c.id);
      held := c.id == watched;
      ghost var c0, o0, q0, f0 := current, overflow, queue, fired;
      var _ := SampleTimeNow(tick, now);
      ghost var c1, o1, q1, f1 := current, overflow, queue, fired;
      SilentBut(c0, o0, q0, f0, c1, o1, q1, f1, c.id);
      if c.id == watched {
        IssuedOnly(Due(start, period, calls) - period, now);
      }
      ExecuteCommand(c, tick);
      SilentThen(c0, o0, q0, f0, c1, o1, q1, f1, current, overflow, queue, fired, {c.id});
      CommandIsNotAbsent(old(current), old(overflow), old(queue), old(fired), current, overflow, queue, fired);
    }

    // The branches for the commands
    method ExecuteCommand(c: Command, tick: nat)
      requires Valid() && NeverEarly() && tick == last % WRAP && c.id in timers && c.value < WRAP
      requires c.kind == ChangePeriod ==> c.value > 0
      requires held == (c.id == watched) && OnTrack() && IssuedAt(c.value, last) >= 0
      requires c.id == watched ==> c.kind == Start && IssuedAt(c.value, last) == Due(start, period, calls) - period
      modifies `timers, `current, `overflow, `queue, `fired, `calls, `held
      ensures Valid() && OnTrack() && !held && NeverEarly()
      ensures calls >= old(calls) && (old(OverflowBehind()) ==> OverflowBehind())
      ensures Silent(old(current), old(overflow), old(queue), old(fired), current, overflow, queue, fired, {c.id})
      ensures c.kind in {Stop, Kind.Delete} ==>
                && current == old(current) && overflow == old(overflow) && queue == old(queue) && fired == old(fired)
                && timers == old(timers)[c.id := old(timers)[c.id].(active := false)]
    {
      hide Silent, Absent, Tracked, Inserted, ListOk, QueueOk, PeriodsOk, Due;
      StaysSilent(current, overflow, queue, fired);
      SilentBut(current, overflow, queue, fired, current, overflow, queue, fired, c.id);
      match c.kind {
        case Start =>
          StartTimer(c.id, c.value, tick);
          held := false;
        case Stop =>
          SetActive(c.id, false);
        case ChangePeriod =>
          ChangePeriodOf(c.id, c.value, tick);
        case Delete =>
          SetActive(c.id, false);
      }
    }

    // The tmrCOMMAND_CHANGE_PERIOD branch
    method ChangePeriodOf(id: Id, newPeriod: nat, tick: nat)
      requires Valid() && OnTrack() && !held && id in timers && id != watched && 1 <= newPeriod < WRAP
      modifies `timers, `current, `overflow
      ensures Valid() && OnTrack()
      ensures timers == old(timers)[id := old(timers)[id].(period := newPeriod, active := true)]
      ensures tick == lastTime && old(OverflowBehind()) ==> OverflowBehind()
      ensures var next := (tick + newPeriod) % WRAP;
              if next > tick then
                current == Inserted(old(current), Entry(id, next)) && overflow == old(overflow)
              else current == old(current) && overflow == Inserted(old(overflow), Entry(id, next))
      ensures Silent(old(current), old(overflow), queue, fired, current, overflow, queue, fired, {id})
    {
      hide Tracked, Inserted, ListOk, QueueOk, PlaceOf, Silent;
      OthersSilent(current, overflow, queue, fired, Entry(id, (tick + newPeriod) % WRAP), Command(Start, id, 0), 0);
      StaysSilent(current, overflow, queue, fired);
      SilentBut(current, overflow, queue, fired, current, overflow, queue, fired, id);
      timers := timers[id := timers[id].(period := newPeriod, active := true)];
      assert timers.Keys == old(timers).Keys;
      OthersMove(held, current, overflow, queue, fired, last / WRAP, watched, period, start, calls,
                 Entry(id, (tick + newPeriod) % WRAP), Command(Start, id, 0));
      NeverAtOnce(tick, newPeriod);
      var _ := InsertTimerInActiveList(id, (tick + newPeriod) % WRAP, tick, tick);
    }
  }

  /** The absolute tick at which a command with time `command` was issued, as seen at `now`. */
  ghost function IssuedAt(command: nat, now: nat): int {
    now - (now % WRAP - command) % WRAP
  }

  /** A timer started now is never due at once. */
  lemma NeverAtOnce(tick: nat, period: nat)
    requires 1 <= period
    ensures var next := (tick + period) % WRAP;
            PlaceOf(next, tick, tick, period) == if next > tick then InCurrent else InOverflow
  {
  }

  /** An expiry that goes on the overflow list comes less than one round after `tick`. */
  lemma InsertedBehind(overflow: seq<Entry>, x: Entry, tick: nat, command: nat, period: nat)
    ensures 1 <= period < WRAP && x.value == (command + period) % WRAP
            && PlaceOf(x.value, tick, command, period) == InOverflow
            && (forall y <- overflow :: y.value < tick) ==>
              forall y <- Inserted(overflow, x) :: y.value < tick
  {
    InsertedMembers(overflow, x);
  }

  lemma PeriodOf(timers: map<Id, Timer>, id: Id)
    requires PeriodsOk(timers) && id in timers
    ensures 1 <= timers[id].period < WRAP
  {
  }

  /** Taking a command off the queue and its timer off the lists. */
  lemma CommandTaken(current: seq<Entry>, overflow: seq<Entry>, queue: seq<Command>, fired: seq<(Id, nat)>,
                     epoch: nat, w: Id, period: nat, start: nat, k: nat, ids: set<Id>)
    requires Tracked(false, current, overflow, queue, fired, epoch, w, period, start, k) && queue != []
    requires ListOk(current, ids) && ListOk(overflow, ids) && QueueOk(queue, ids)
    ensures var c := queue[0];
            && ListOk(Unlinked(current, c.id), ids) && ListOk(Unlinked(overflow, c.id), ids) && QueueOk(queue[1..], ids)
            && (current == [] ==> Unlinked(current, c.id) == []) && (overflow == [] ==> Unlinked(overflow, c.id) == [])
            && c.id in ids && c.value < WRAP
            && (c.id == w ==> Due(start, period, k) >= period
                              && c == Command(Start, w, (Due(start, period, k) - period) % WRAP))
            && Tracked(c.id == w, Unlinked(current, c.id), Unlinked(overflow, c.id), queue[1..], fired,
                       epoch, w, period, start, k)
  {
    var c := queue[0];
    UnlinkedTimes(current, c.id, w);
    UnlinkedTimes(overflow, c.id, w);
    UnlinkedOk(current, c.id, ids);
    UnlinkedOk(overflow, c.id, ids);
    DueNext(start, period, k);
    if c.id == w {
      assert Pending(queue, w) == [c] + Pending(queue[1..], w);
      assert Pending(queue, w)[0] == c;
    }
  }

  /** The ways of going on with a start command, by the expiry that it asks for. */
  lemma Started(current: seq<Entry>, overflow: seq<Entry>, queue: seq<Command>, fired: seq<(Id, nat)>,
                w: Id, period: nat, start: nat, k: nat, id: Id, command: nat, period': nat, now: nat)
    requires Tracked(id == w, current, overflow, queue, fired, now / WRAP, w, period, start, k)
    requires 1 <= period' < WRAP && command < WRAP && IssuedAt(command, now) >= 0
    requires id == w ==> period' == period && IssuedAt(command, now) == Due(start, period, k) - period
    ensures var next := (command + period') % WRAP;
            var place, due := PlaceOf(next, now % WRAP, command, period'), IssuedAt(command, now) + period';
            var fired', k' := fired + [(id, due)], k + if id == w then 1 else 0;
            && (place == ProcessNow <==> due <= now)
            && (place == InCurrent ==>
                  Tracked(false, Inserted(current, Entry(id, next)), overflow, queue,
                          fired, now / WRAP, w, period, start, k))
            && (place == InOverflow ==>
                  Tracked(false, current, Inserted(overflow, Entry(id, next)), queue,
                          fired, now / WRAP, w, period, start, k))
            && (place == ProcessNow ==>
                  Tracked(false, current, overflow, queue + [Command(Start, id, next)],
                          fired', now / WRAP, w, period, start, k'))
            && (place == ProcessNow && id != w ==>
                  Tracked(false, current, overflow, queue, fired', now / WRAP, w, period, start, k'))
  {
    hide Inserted, Due, Times, Pending, Called, PlaceOf;
    var next, due := (command + period') % WRAP, IssuedAt(command, now) + period';
    IssuedIs(command, now);
    PlacementIsExact(IssuedAt(command, now), period', now);
    ModAdd(IssuedAt(command, now), period');
    CalledMore(fired, id, due, w);
    if id == w {
      PutBack(current, overflow, queue, fired, now / WRAP, w, period, start, k);
      DueNext(start, period, k);
      assert Tracked(true, current, overflow, queue, fired + [(id, due)], now / WRAP, w, period, start, k + 1);
      PutBack(current, overflow, queue, fired + [(id, due)], now / WRAP, w, period, start, k + 1);
    } else {
      OthersMove(false, current, overflow, queue, fired, now / WRAP, w, period, start, k,
                 Entry(id, next), Command(Start, id, next));
      OthersMove(false, current, overflow, queue, fired + [(id, due)], now / WRAP, w, period, start, k,
                 Entry(id, next), Command(Start, id, next));
    }
  }

  lemma IssuedIs(command: nat, now: nat)
    requires command < WRAP
    ensures IssuedAt(command, now) <= now < IssuedAt(command, now) + WRAP
    ensures IssuedAt(command, now) % WRAP == command
  {
  }

  lemma IssuedOnly(at: nat, now: nat)
    requires at <= now < at + WRAP
    ensures IssuedAt(at % WRAP, now) == at
  {
    assert (now % WRAP - at % WRAP) % WRAP == now - at;
  }

  lemma ModAdd(a: int, b: nat)
    ensures (a % WRAP + b) % WRAP == (a + b) % WRAP
  {
  }

  /** The callback number `j + 1` of a watched timer belongs to expiry `start + (j+1)*period`:
      none is left out and none repeated, whether handled on time, late, or at a wrap. */
  lemma CallsArePeriodic(d: Daemon, j: nat)
    requires d.OnTrack() && j < d.calls
    ensures |Called(d.fired, d.watched)| == d.calls
    ensures Called(d.fired, d.watched)[j] == d.start + (j + 1) * d.period
  {
    ExpiryAt(d.start, d.period, d.calls, j);
  }

  lemma {:induction false} ExpiryAt(start: nat, period: nat, k: nat, j: nat)
    requires j < k
    ensures |Expiries(start, period, k)| == k && Expiries(start, period, k)[j] == Due(start, period, j)
  {
    if j < k - 1 {
      ExpiryAt(start, period, k - 1, j);
    } else if k > 1 {
      ExpiryAt(start, period, k - 1, 0);
    }
  }

  /** Waiting `ticks` from `now` is not too long for any timer on a list of epoch `epoch`. */
  ghost predicate WakesInTime(list: seq<Entry>, epoch: nat, now: nat, ticks: nat) {
    forall x <- list :: now + ticks <= epoch * WRAP + x.value && now < epoch * WRAP + x.value
  }

  lemma BlockTime(current: seq<Entry>, overflow: seq<Entry>, now: nat, ticks: nat)
    requires InOrder(current) && InOrder(overflow)
    requires current != [] ==> now % WRAP < current[0].value && ticks == (current[0].value - now % WRAP) % WRAP
    requires current == [] ==> ticks == (0 - now % WRAP) % WRAP
    ensures WakesInTime(current, now / WRAP, now, ticks) && WakesInTime(overflow, now / WRAP + 1, now, ticks)
    ensures (current != [] || overflow != []) && (forall x <- overflow :: x.value < now % WRAP) ==> ticks >= 1
  {
    var e, t := now / WRAP, now % WRAP;
    assert now == e * WRAP + t;
    if current != [] {
      assert current[0].value < WRAP && ticks == current[0].value - t;
    } else {
      assert ticks == if t == 0 then 0 else WRAP - t;
      assert overflow != [] ==> overflow[0] in overflow;
    }
  }

  lemma {:induction false} CalledWasFired(fired: seq<(Id, nat)>, id: Id)
    ensures forall due <- Called(fired, id) :: (id, due) in fired
  {
    if fired != [] {
      CalledWasFired(fired[..|fired| - 1], id);
    }
  }

  lemma {:induction false} TimesAreListed(list: seq<Entry>, id: Id)
    ensures forall v <- Times(list, id) :: Entry(id, v) in list
  {
    if list != [] {
      TimesAreListed(list[1..], id);
    }
  }

  lemma {:induction false} DueLater(start: nat, period: nat, j: nat, k: nat)
    requires j <= k
    ensures Due(start, period, j) <= Due(start, period, k)
    decreases k
  {
    if j < k {
      DueNext(start, period, k - 1);
      DueLater(start, period, j, k - 1);
    }
  }

  /** What is on record of a timer without a command lies in the future when the daemon blocks. */
  lemma NextIsAhead(current: seq<Entry>, overflow: seq<Entry>, queue: seq<Command>, fired: seq<(Id, nat)>,
                    now: nat, ticks: nat, w: Id, period: nat, start: nat, k: nat)
    requires Tracked(false, current, overflow, queue, fired, now / WRAP, w, period, start, k)
    requires Pending(queue, w) == []
    requires WakesInTime(current, now / WRAP, now, ticks) && WakesInTime(overflow, now / WRAP + 1, now, ticks)
    ensures now < Due(start, period, k) && now + ticks <= Due(start, period, k)
    ensures current != [] || overflow != []
  {
    hide Due, Pending, Called;
    var due := Due(start, period, k);
    TimesAreListed(current, w);
    TimesAreListed(overflow, w);
    if Times(current, w) != [] {
      assert Times(current, w)[0] == due % WRAP && due / WRAP == now / WRAP;
      assert Entry(w, due % WRAP) in current;
    } else {
      assert Times(overflow, w)[0] == due % WRAP && due / WRAP == now / WRAP + 1;
      assert Entry(w, due % WRAP) in overflow;
    }
  }

  /** No expiry is lost: whenever the daemon goes to sleep at tick `now` with no command for
      the watched timer pending, the callbacks made are those of exactly the expiries up to
      `now`, the next one is on a list, and the daemon does not sleep beyond it. */
  lemma EveryExpiryIsCalled(d: Daemon, now: nat, ticks: nat)
    requires d.OnTrack() && d.NeverEarly() && d.last == now && !d.held && Pending(d.queue, d.watched) == []
    requires WakesInTime(d.current, now / WRAP, now, ticks) && WakesInTime(d.overflow, now / WRAP + 1, now, ticks)
    ensures d.UpToDate()
    ensures now + ticks <= Due(d.start, d.period, d.calls)
    ensures d.current != [] || d.overflow != []
  {
    hide Due, Pending, WakesInTime;
    NextIsAhead(d.current, d.overflow, d.queue, d.fired, now, ticks, d.watched, d.period, d.start, d.calls);
    CalledWasFired(d.fired, d.watched);
    if d.calls > 0 {
      var last := Due(d.start, d.period, d.calls - 1);
      ExpiryAt(d.start, d.period, d.calls, d.calls - 1);
      assert Called(d.fired, d.watched)[d.calls - 1] == last;
      assert (d.watched, last) in d.fired;
    } else {
      assert Called(d.fired, d.watched) == [];
    }
    forall j: nat ensures j < d.calls <==> Due(d.start, d.period, j) <= now {
      if j < d.calls {
        DueLater(d.start, d.period, j, d.calls - 1);
      } else {
        DueLater(d.start, d.period, d.calls, j);
      }
    }
  }

  /** Where the next expiry of a timer belongs that expired at `v` of the epoch. */
  lemma NextPlace(epoch: nat, v: nat, tick: nat, period: nat)
    requires v <= tick < WRAP && 1 <= period < WRAP
    ensures var due, place := epoch * WRAP + v + period, PlaceOf((v + period) % WRAP, tick, v, period);
            && due % WRAP == (v + period) % WRAP && (due - period) % WRAP == v
            && (place == InCurrent ==> due / WRAP == epoch)
            && (place == InOverflow ==> due / WRAP == epoch + 1)
  {
    ReloadIs(epoch, v, period);
    ReloadIs(epoch, tick, period);
    PlacementIsExact(epoch * WRAP + v, period, epoch * WRAP + tick);
  }

  /** The ways of going on with timer `x`, which was at the head of the current list and has
      been called, by the place of its next expiry `next`. */
  ghost predicate GoesOn(held: bool, rest: seq<Entry>, overflow: seq<Entry>, queue: seq<Command>,
                         fired: seq<(Id, nat)>, epoch: nat, w: Id, period: nat, start: nat, k: nat,
                         x: Entry, next: nat, place: Place)
  {
    && (x.id != w ==> Tracked(held, rest, overflow, queue, fired, epoch, w, period, start, k))
    && (place == InCurrent ==>
          Tracked(held, Inserted(rest, Entry(x.id, next)), overflow, queue, fired, epoch, w, period, start, k))
    && (place == InOverflow ==>
          Tracked(held, rest, Inserted(overflow, Entry(x.id, next)), queue, fired, epoch, w, period, start, k))
    && (place == ProcessNow ==>
          Tracked(held, rest, overflow, queue + [Command(Start, x.id, x.value)], fired, epoch, w, period, start, k))
  }

  lemma Expired(held: bool, current: seq<Entry>, overflow: seq<Entry>, queue: seq<Command>, fired: seq<(Id, nat)>,
                epoch: nat, w: Id, period: nat, start: nat, k: nat, tick: nat, period': nat)
    requires Tracked(held, current, overflow, queue, fired, epoch, w, period, start, k) && current != []
    requires 1 <= period' < WRAP && current[0].value <= tick < WRAP && (current[0].id == w ==> period' == period)
    ensures var x := current[0];
            var next := (x.value + period') % WRAP;
            GoesOn(held, current[1..], overflow, queue, fired + [(x.id, epoch * WRAP + x.value)], epoch, w, period,
                   start, k + if x.id == w then 1 else 0, x, next, PlaceOf(next, tick, x.value, period'))
  {
    hide Tracked, Inserted, Due, PlaceOf;
    var x, rest := current[0], current[1..];
    var fired': seq<(Id, nat)> := fired + [(x.id, epoch * WRAP + x.value)];
    var next := (x.value + period') % WRAP;
    HeadCalled(held, current, overflow, queue, fired, epoch, w, period, start, k);
    if x.id == w {
      DueNext(start, period, k);
      NextPlace(epoch, x.value, tick, period);
      PutBack(rest, overflow, queue, fired', epoch, w, period, start, k + 1);
    } else {
      OthersMove(held, rest, overflow, queue, fired', epoch, w, period, start, k,
                 Entry(x.id, next), Command(Start, x.id, x.value));
    }
  }

  /** The ways of going on after the callback of the timer at the head. */
  lemma Reloaded(held: bool, current: seq<Entry>, overflow: seq<Entry>, queue: seq<Command>, fired: seq<(Id, nat)>,
                 epoch: nat, w: Id, period: nat, start: nat, k: nat, reload: nat)
    requires Tracked(held, current, overflow, queue, fired, epoch, w, period, start, k) && current != []
    requires 1 <= period < WRAP && reload < WRAP
    ensures current[0].id == w ==> !held
    ensures var x, rest := current[0], current[1..];
            var fired': seq<(Id, nat)> := fired + [(x.id, epoch * WRAP + x.value)];
            var k': nat := k + if x.id == w then 1 else 0;
            var queue' := queue + [Command(Start, x.id, x.value)];
            && (x.id != w ==> Tracked(held, rest, overflow, queue, fired', epoch, w, period, start, k'))
            && (x.id != w || (reload == (x.value + period) % WRAP && reload > x.value) ==>
                  Tracked(held, Inserted(rest, Entry(x.id, reload)), overflow, queue,
                          fired', epoch, w, period, start, k'))
            && (x.id != w || (reload == (x.value + period) % WRAP && reload <= x.value) ==>
                  Tracked(held, rest, overflow, queue', fired', epoch, w, period, start, k'))
  {
    hide Tracked, Inserted, Due;
    var x, rest := current[0], current[1..];
    var fired': seq<(Id, nat)> := fired + [(x.id, epoch * WRAP + x.value)];
    HeadCalled(held, current, overflow, queue, fired, epoch, w, period, start, k);
    if x.id == w {
      DueNext(start, period, k);
      ReloadIs(epoch, x.value, period);
      PutBack(rest, overflow, queue, fired', epoch, w, period, start, k + 1);
    } else {
      OthersMove(held, rest, overflow, queue, fired', epoch, w, period, start, k,
                 Entry(x.id, reload), Command(Start, x.id, x.value));
    }
  }

  /** In the same list just when in the same epoch. */
  lemma ReloadIs(epoch: nat, v: nat, period: nat)
    requires v < WRAP && 1 <= period < WRAP
    ensures var due := epoch * WRAP + v + period;
            && due % WRAP == (v + period) % WRAP && (epoch * WRAP + v) % WRAP == v
            && (due / WRAP == epoch <==> (v + period) % WRAP > v)
            && (epoch * WRAP + v) / WRAP == epoch
  {
    var d := v + period;
    assert d == (if d < WRAP then 0 else 1) * WRAP + d % WRAP;
  }
}
