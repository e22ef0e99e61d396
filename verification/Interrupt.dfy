/** The simulated clock and event queue of nachos64/code/machine/interrupt.cc. */
module Interrupts {
  import opened Lists

  const SYSTEM_TICK := 10
  const USER_TICK := 1

  datatype IntType = TimerInt | DiskInt | ConsoleWriteInt | ConsoleReadInt | NetworkSendInt | NetworkRecvInt

  datatype MachineStatus = IdleMode | SystemMode | UserMode

  /** One PendingInterrupt object. `id` counts them from zero, so it stands for the object and for its handler call. */
  datatype Pending = Pending(id: nat, when: int, kind: IntType)

  type Queue = seq<Entry<Pending>>

  /** A handler call, and the time at which it happened. */
  datatype Firing = Firing(what: Pending, at: int)

  type Delay = d: int | d > 0 witness 1

  datatype Request = Request(fromNow: Delay, kind: IntType)

  /** What one handler call does to the clock: the interrupts it schedules, and whether it asks for a context switch. */
  datatype Reaction = Reaction(requests: seq<Request>, switches: bool)

  /**
   * The event queue and the tick counts, with two logs: every interrupt scheduled so far and every handler call so far.
   */
  datatype Clock = Clock(
    queue: Queue, yieldOnReturn: bool, total: int, idle: int, system: int, user: int,
    scheduled: seq<Pending>, fired: seq<Firing>)

  // What the operations do

  function Add(c: Clock, fromNow: int, kind: IntType): Clock {
    var p := Pending(|c.scheduled|, c.total + fromNow, kind);
    c.(queue := Inserted(c.queue, Entry(p.when, p)), scheduled := c.scheduled + [p])
  }

  /** The first `n` requests, scheduled in turn. */
  function AddFirst(c: Clock, requests: seq<Request>, n: nat): Clock
    requires n <= |requests|
  {
    if n == 0 then c else Add(AddFirst(c, requests, n - 1), requests[n - 1].fromNow, requests[n - 1].kind)
  }

  function React(c: Clock, r: Reaction): Clock {
    AddFirst(c, r.requests, |r.requests|).(yieldOnReturn := c.yieldOnReturn || r.switches)
  }

  function TakeHead(c: Clock): Clock
    requires c.queue != []
  {
    c.(queue := c.queue[1..], fired := c.fired + [Firing(c.queue[0].item, c.total)])
  }

  /** The head leaves the queue and its handler runs. */
  function Fire(c: Clock, reaction: nat -> Reaction): Clock
    requires c.queue != []
  {
    React(TakeHead(c), reaction(c.queue[0].item.id))
  }

  function PutBack(c: Clock): Clock
    requires c.queue != []
  {
    c.(queue := Inserted(c.queue[1..], c.queue[0]))
  }

  /** The idle clock jumps to the head's due time. */
  function Advance(c: Clock): Clock
    requires c.queue != []
  {
    var when := c.queue[0].key;
    if when > c.total then c.(idle := c.idle + (when - c.total), total := when) else c
  }

  /** With nothing but a timer to wait for, an idle machine does not run its handler. */
  predicate LoneTimer(queue: Queue, status: MachineStatus) {
    status == IdleMode && |queue| == 1 && queue[0].item.kind == TimerInt
  }

  predicate Fires(c: Clock, status: MachineStatus, advance: bool) {
    c.queue != [] && (advance || c.queue[0].key <= c.total) && !LoneTimer(c.queue, status)
  }

  function Check(c: Clock, status: MachineStatus, advance: bool, reaction: nat -> Reaction): Clock {
    if c.queue == [] then c
    else
      var c' := if advance then Advance(c) else c;
      if Fires(c, status, advance) then Fire(c', reaction) else PutBack(c')
  }

  /** The loop of checks that leaves the clock alone. It ends for every queue and all devices. */
  function Drain(c: Clock, status: MachineStatus, reaction: nat -> Reaction): Clock
    decreases |Due(c)|
  {
    var c' := Check(c, status, false, reaction);
    if Fires(c, status, false) then
      FireProgress(c, reaction);
      Drain(c', status, reaction)
    else c'
  }

  function Ticked(c: Clock, status: MachineStatus): Clock {
    if status == SystemMode
    then c.(total := c.total + SYSTEM_TICK, system := c.system + SYSTEM_TICK)
    else c.(total := c.total + USER_TICK, user := c.user + USER_TICK)
  }

  function Tick(c: Clock, status: MachineStatus, reaction: nat -> Reaction): Clock {
    Drain(Ticked(c, status), status, reaction).(yieldOnReturn := false)
  }

  function Idled(c: Clock, reaction: nat -> Reaction): Clock {
    var c' := Check(c, IdleMode, true, reaction);
    if Fires(c, IdleMode, true) then Drain(c', IdleMode, reaction).(yieldOnReturn := false) else c'
  }

  // The invariant

  function Items(queue: Queue): (r: seq<Pending>)
    ensures |r| == |queue| && forall i | 0 <= i < |r| :: r[i] == queue[i].item
  {
    seq(|queue|, i requires 0 <= i < |queue| => queue[i].item)
  }

  function Whats(fired: seq<Firing>): (r: seq<Pending>)
    ensures |r| == |fired| && forall i | 0 <= i < |r| :: r[i] == fired[i].what
  {
    seq(|fired|, i requires 0 <= i < |fired| => fired[i].what)
  }

  predicate NumberedAt(scheduled: seq<Pending>, i: int)
    requires 0 <= i < |scheduled|
  {
    scheduled[i].id == i
  }

  /** Each interrupt scheduled so far is an object of its own, and is in the queue or in the log of firings, once. */
  ghost predicate EachInOnePlace(scheduled: seq<Pending>, queue: Queue, fired: seq<Firing>) {
    && (forall i | 0 <= i < |scheduled| :: NumberedAt(scheduled, i))
    && multiset(scheduled) == multiset(Items(queue)) + multiset(Whats(fired))
  }

  /** Not early, not before its predecessor's due time, and ten ticks late or more only if it is a timer. */
  predicate OnTimeAt(fired: seq<Firing>, i: int)
    requires 0 <= i < |fired|
  {
    var f := fired[i];
    && f.what.when <= f.at && (f.what.kind != TimerInt ==> f.at - f.what.when < SYSTEM_TICK)
    && (i > 0 ==> fired[i - 1].what.when <= f.what.when && fired[i - 1].at <= f.at)
  }

  predicate OnTime(fired: seq<Firing>, total: int) {
    && (fired != [] ==> fired[|fired| - 1].at <= total)
    && forall i | 0 <= i < |fired| :: OnTimeAt(fired, i)
  }

  predicate KeyedAt(queue: Queue, total: int, i: int)
    requires 0 <= i < |queue|
  {
    queue[i].key == queue[i].item.when && (queue[i].item.kind != TimerInt ==> total - queue[i].key < SYSTEM_TICK)
  }

  /** The queue is in order of due time, behind all that has fired; only a timer in it is ten ticks late or more. */
  predicate Ordered(queue: Queue, fired: seq<Firing>, total: int) {
    && Sorted(queue)
    && (fired != [] && queue != [] ==> fired[|fired| - 1].what.when <= queue[0].key)
    && forall i | 0 <= i < |queue| :: KeyedAt(queue, total, i)
  }

  ghost predicate Inv(c: Clock) {
    && EachInOnePlace(c.scheduled, c.queue, c.fired) && Ordered(c.queue, c.fired, c.total) && OnTime(c.fired, c.total)
    && c.total == c.idle + c.system + c.user
  }

  /** Between calls nothing is due, except that a timer left alone when the machine went idle may wait at the head. */
  predicate Drained(c: Clock) {
    forall i | 0 <= i < |c.queue| && c.queue[i].key <= c.total :: i == 0 && c.queue[i].item.kind == TimerInt
  }

  /** The entries due. They come first in the queue. */
  function Due(c: Clock): Queue {
    c.queue[..Place(c.queue, c.total)]
  }

  /** The firings of the entries of `due`, one after the other, at time `at`. */
  function Fired(due: Queue, at: int): (r: seq<Firing>)
    ensures |r| == |due| && forall i | 0 <= i < |r| :: r[i] == Firing(due[i].item, at)
  {
    seq(|due|, i requires 0 <= i < |due| => Firing(due[i].item, at))
  }

  // Scheduling

  lemma InsertedAt(queue: Queue, e: Entry<Pending>)
    ensures var k, q := Place(queue, e.key), Inserted(queue, e);
            && |q| == |queue| + 1
            && forall i | 0 <= i < |q| :: q[i] == if i < k then queue[i] else if i == k then e else queue[i - 1]
  {
  }

  lemma ItemsAround(queue: Queue, k: nat, e: Entry<Pending>)
    requires k <= |queue|
    ensures Items(queue[..k] + [e] + queue[k..]) == Items(queue)[..k] + [e.item] + Items(queue)[k..]
  {
  }

  lemma MultisetAround(s: seq<Pending>, k: nat, p: Pending)
    requires k <= |s|
    ensures multiset(s[..k] + [p] + s[k..]) == multiset(s) + multiset{p}
  {
    assert s == s[..k] + s[k..];
  }

  lemma ItemsInserted(queue: Queue, e: Entry<Pending>)
    ensures multiset(Items(Inserted(queue, e))) == multiset(Items(queue)) + multiset{e.item}
  {
    ItemsAround(queue, Place(queue, e.key), e);
    MultisetAround(Items(queue), Place(queue, e.key), e.item);
  }

  lemma AddKeepsPlaces(scheduled: seq<Pending>, queue: Queue, fired: seq<Firing>, p: Pending)
    requires EachInOnePlace(scheduled, queue, fired) && p.id == |scheduled|
    ensures EachInOnePlace(scheduled + [p], Inserted(queue, Entry(p.when, p)), fired)
  {
    forall i | 0 <= i <= |scheduled| ensures NumberedAt(scheduled + [p], i) {
      assert i < |scheduled| ==> NumberedAt(scheduled, i);
    }
    ItemsInserted(queue, Entry(p.when, p));
  }

  lemma AddKeepsOrder(queue: Queue, fired: seq<Firing>, total: int, p: Pending)
    requires Ordered(queue, fired, total) && OnTime(fired, total) && p.when > total
    ensures Ordered(Inserted(queue, Entry(p.when, p)), fired, total)
  {
    InsertedIsSorted(queue, Entry(p.when, p));
    InsertedAt(queue, Entry(p.when, p));
    assert fired != [] ==> OnTimeAt(fired, |fired| - 1);
    forall i | 0 <= i <= |queue| ensures KeyedAt(Inserted(queue, Entry(p.when, p)), total, i) {
      assert i < |queue| ==> KeyedAt(queue, total, i);
      assert i > 0 ==> KeyedAt(queue, total, i - 1);
    }
  }

  lemma PlaceIs(queue: Queue, total: int, k: nat)
    requires k <= |queue| && (forall j | 0 <= j < k :: queue[j].key <= total) && (k < |queue| ==> queue[k].key > total)
    ensures Place(queue, total) == k
  {
  }

  /** What a handler schedules goes behind all that is due. */
  lemma AddKeepsDue(queue: Queue, e: Entry<Pending>, total: int)
    requires e.key > total
    ensures var q, d := Inserted(queue, e), Place(queue, total); Place(q, total) == d && q[..d] == queue[..d]
  {
    InsertedAt(queue, e);
    PlaceIs(Inserted(queue, e), total, Place(queue, total));
  }

  lemma AddKeeps(c: Clock, fromNow: int, kind: IntType)
    requires Inv(c) && fromNow > 0
    ensures Inv(Add(c, fromNow, kind))
  {
    var p := Pending(|c.scheduled|, c.total + fromNow, kind);
    AddKeepsPlaces(c.scheduled, c.queue, c.fired, p);
    AddKeepsOrder(c.queue, c.fired, c.total, p);
  }

  lemma {:induction false} AddFirstKeeps(c: Clock, requests: seq<Request>, n: nat)
    requires Inv(c) && n <= |requests|
    ensures Inv(AddFirst(c, requests, n))
  {
    if n > 0 {
      AddFirstKeeps(c, requests, n - 1);
      AddKeeps(AddFirst(c, requests, n - 1), requests[n - 1].fromNow, requests[n - 1].kind);
    }
  }

  lemma AddLeavesDue(c: Clock, fromNow: int, kind: IntType)
    requires fromNow > 0
    ensures Due(Add(c, fromNow, kind)) == Due(c)
  {
    AddKeepsDue(c.queue, Entry(c.total + fromNow, Pending(|c.scheduled|, c.total + fromNow, kind)), c.total);
  }

  lemma {:induction false} AddFirstKeepsDue(c: Clock, requests: seq<Request>, n: nat)
    requires n <= |requests|
    ensures var c' := AddFirst(c, requests, n);
            && Due(c') == Due(c)
            && c' == c.(queue := c'.queue, scheduled := c'.scheduled)
  {
    if n > 0 {
      AddFirstKeepsDue(c, requests, n - 1);
      AddLeavesDue(AddFirst(c, requests, n - 1), requests[n - 1].fromNow, requests[n - 1].kind);
    }
  }

  // Firing

  lemma TakeKeepsPlaces(scheduled: seq<Pending>, queue: Queue, fired: seq<Firing>, at: int)
    requires EachInOnePlace(scheduled, queue, fired) && queue != []
    ensures EachInOnePlace(scheduled, queue[1..], fired + [Firing(queue[0].item, at)])
  {
    assert Items(queue) == [queue[0].item] + Items(queue[1..]);
    assert Whats(fired + [Firing(queue[0].item, at)]) == Whats(fired) + [queue[0].item];
  }

  lemma TakeKeepsOrder(queue: Queue, fired: seq<Firing>, total: int)
    requires Ordered(queue, fired, total) && OnTime(fired, total) && queue != [] && queue[0].key <= total
    ensures var f := fired + [Firing(queue[0].item, total)]; Ordered(queue[1..], f, total) && OnTime(f, total)
  {
    assert KeyedAt(queue, total, 0);
    var f := fired + [Firing(queue[0].item, total)];
    forall i | 0 <= i < |f| ensures OnTimeAt(f, i) {
      assert i < |fired| ==> OnTimeAt(fired, i);
    }
    forall i | 0 <= i < |queue| - 1 ensures KeyedAt(queue[1..], total, i) {
      assert KeyedAt(queue, total, i + 1);
    }
  }

  lemma TakeFromDue(queue: Queue, total: int)
    requires queue != [] && queue[0].key <= total
    ensures queue[..Place(queue, total)] == [queue[0]] + queue[1..][..Place(queue[1..], total)]
  {
    assert Place(queue, total) > 0;
    PlaceIs(queue[1..], total, Place(queue, total) - 1);
  }

  lemma FireKeeps(c: Clock, reaction: nat -> Reaction)
    requires Inv(c) && c.queue != [] && c.queue[0].key <= c.total
    ensures Inv(Fire(c, reaction))
  {
    TakeKeepsPlaces(c.scheduled, c.queue, c.fired, c.total);
    TakeKeepsOrder(c.queue, c.fired, c.total);
    var r := reaction(c.queue[0].item.id);
    AddFirstKeeps(TakeHead(c), r.requests, |r.requests|);
  }

  /** Each firing takes one entry from those due at the unmoved clock, whatever its handler schedules. */
  lemma FireProgress(c: Clock, reaction: nat -> Reaction)
    requires c.queue != [] && c.queue[0].key <= c.total
    ensures var c' := Fire(c, reaction);
            && Due(c) == [c.queue[0]] + Due(c')
            && c'.total == c.total && c'.fired == c.fired + [Firing(c.queue[0].item, c.total)]
            && c'.idle == c.idle && c'.system == c.system && c'.user == c.user
  {
    TakeFromDue(c.queue, c.total);
    var r := reaction(c.queue[0].item.id);
    AddFirstKeepsDue(TakeHead(c), r.requests, |r.requests|);
  }

  lemma PutBackKeepsPlaces(scheduled: seq<Pending>, queue: Queue, fired: seq<Firing>)
    requires EachInOnePlace(scheduled, queue, fired) && queue != []
    ensures EachInOnePlace(scheduled, Inserted(queue[1..], queue[0]), fired)
  {
    assert Items(queue) == [queue[0].item] + Items(queue[1..]);
    ItemsInserted(queue[1..], queue[0]);
  }

  lemma PutBackKeepsRest(queue: Queue, fired: seq<Firing>, total: int)
    requires Ordered(queue, fired, total) && queue != []
    ensures Ordered(Inserted(queue[1..], queue[0]), fired, total)
  {
    InsertedIsSorted(queue[1..], queue[0]);
    InsertedAt(queue[1..], queue[0]);
    forall i | 0 <= i < |queue| ensures KeyedAt(Inserted(queue[1..], queue[0]), total, i) {
      assert KeyedAt(queue, total, i) && KeyedAt(queue, total, 0);
      assert i + 1 < |queue| ==> KeyedAt(queue, total, i + 1);
    }
  }

  lemma PutBackKeeps(c: Clock)
    requires Inv(c) && c.queue != []
    ensures Inv(PutBack(c)) && (c.queue[0].key > c.total ==> Due(PutBack(c)) == [])
  {
    PutBackKeepsPlaces(c.scheduled, c.queue, c.fired);
    PutBackKeepsRest(c.queue, c.fired, c.total);
    InsertedAt(c.queue[1..], c.queue[0]);
  }

  lemma AdvanceKeeps(c: Clock)
    requires Inv(c) && c.queue != []
    ensures Inv(Advance(c)) && c.queue[0].key <= Advance(c).total
  {
    forall i | 0 <= i < |c.queue| ensures KeyedAt(c.queue, Advance(c).total, i) {
      assert KeyedAt(c.queue, c.total, i);
    }
  }

  lemma CheckKeeps(c: Clock, status: MachineStatus, advance: bool, reaction: nat -> Reaction)
    requires Inv(c)
    ensures Inv(Check(c, status, advance, reaction))
  {
    if c.queue != [] {
      AdvanceKeeps(c);
      var c' := if advance then Advance(c) else c;
      if Fires(c, status, advance) {
        FireKeeps(c', reaction);
      } else {
        PutBackKeeps(c');
      }
    }
  }

  lemma {:induction false} DrainKeeps(c: Clock, status: MachineStatus, reaction: nat -> Reaction)
    requires Inv(c)
    ensures Inv(Drain(c, status, reaction))
    decreases |Due(c)|
  {
    if Fires(c, status, false) {
      FireKeeps(c, reaction);
      FireProgress(c, reaction);
      DrainKeeps(Fire(c, reaction), status, reaction);
    } else if c.queue != [] {
      PutBackKeeps(c);
    }
  }

  lemma {:induction false} DrainKeepsClock(c: Clock, status: MachineStatus, reaction: nat -> Reaction)
    ensures var c' := Drain(c, status, reaction);
            c'.total == c.total && c'.idle == c.idle && c'.system == c.system && c'.user == c.user
    decreases |Due(c)|
  {
    if Fires(c, status, false) {
      FireProgress(c, reaction);
      DrainKeepsClock(Fire(c, reaction), status, reaction);
    }
  }

  lemma FiredNext(before: seq<Firing>, due: Queue, k: nat, at: int)
    requires k < |due|
    ensures before + [Firing(due[0].item, at)] + Fired(due[1..][..k], at) == before + Fired(due[..k + 1], at)
  {
  }

  /** The drain loop fires entries that are due when it starts, in queue order. */
  lemma {:induction false} DrainFires(c: Clock, status: MachineStatus, reaction: nat -> Reaction)
    ensures var f := Drain(c, status, reaction).fired;
            var n := |f| - |c.fired|;
            0 <= n <= |Due(c)| && f == c.fired + Fired(Due(c)[..n], c.total)
    decreases |Due(c)|
  {
    if Fires(c, status, false) {
      FireProgress(c, reaction);
      var c' := Fire(c, reaction);
      DrainFires(c', status, reaction);
      assert Due(c') == Due(c)[1..];
      FiredNext(c.fired, Due(c), |Drain(c', status, reaction).fired| - |c'.fired|, c.total);
    }
  }

  /** It leaves none of them, except that an idle machine keeps a timer that is all there is left. */
  lemma {:induction false} DrainLeaves(c: Clock, status: MachineStatus, reaction: nat -> Reaction)
    requires Inv(c)
    ensures var d := Drain(c, status, reaction);
            if Due(d) == [] then |d.fired| == |c.fired| + |Due(c)|
            else LoneTimer(d.queue, status) && |d.fired| == |c.fired| + |Due(c)| - 1
    decreases |Due(c)|
  {
    if Fires(c, status, false) {
      FireKeeps(c, reaction);
      FireProgress(c, reaction);
      DrainLeaves(Fire(c, reaction), status, reaction);
    } else if c.queue != [] {
      PutBackKeeps(c);
    }
  }

  // Whole runs

  lemma TickedKeeps(c: Clock, status: MachineStatus)
    requires Inv(c) && Drained(c)
    ensures Inv(Ticked(c, status))
  {
    forall i | 0 <= i < |c.queue| ensures KeyedAt(c.queue, Ticked(c, status).total, i) {
      assert KeyedAt(c.queue, c.total, i);
    }
  }

  lemma TickKeeps(c: Clock, status: MachineStatus, reaction: nat -> Reaction)
    requires Inv(c) && Drained(c) && status != IdleMode
    ensures Inv(Tick(c, status, reaction)) && Drained(Tick(c, status, reaction))
  {
    TickedKeeps(c, status);
    DrainKeeps(Ticked(c, status), status, reaction);
    DrainLeaves(Ticked(c, status), status, reaction);
    DrainedAfter(Drain(Ticked(c, status), status, reaction));
  }

  /**
   * One tick moves the clock by ten ticks in system mode and by one in user mode, and fires all that is due by then,
   * each exactly once and in queue order, and nothing else.
   */
  lemma TickFires(c: Clock, status: MachineStatus, reaction: nat -> Reaction) returns (n: nat)
    requires Inv(c) && Drained(c) && status != IdleMode
    ensures var total := c.total + if status == SystemMode then 10 else 1;
            && n <= |c.queue| && (forall i | 0 <= i < |c.queue| :: c.queue[i].key <= total <==> i < n)
            && Tick(c, status, reaction).total == total
            && Tick(c, status, reaction).fired == c.fired + Fired(c.queue[..n], total)
    ensures n == |Due(Ticked(c, status))|
  {
    TickFiresDue(c, status, reaction);
    var t := Ticked(c, status);
    n := |Due(t)|;
    DueFirst(c.queue, t.total);
  }

  lemma TickFiresDue(c: Clock, status: MachineStatus, reaction: nat -> Reaction)
    requires Inv(c) && Drained(c) && status != IdleMode
    ensures var t := Ticked(c, status);
            Tick(c, status, reaction).total == t.total
              && Tick(c, status, reaction).fired == c.fired + Fired(Due(t), t.total)
  {
    var t := Ticked(c, status);
    DrainKeepsClock(t, status, reaction);
    TickDrains(c, status, reaction);
    DrainFires(t, status, reaction);
    assert Due(t)[..|Due(t)|] == Due(t);
  }

  lemma DueFirst(queue: Queue, total: int)
    requires Sorted(queue)
    ensures forall i | 0 <= i < |queue| :: queue[i].key <= total <==> i < Place(queue, total)
  {
  }

  lemma TickDrains(c: Clock, status: MachineStatus, reaction: nat -> Reaction)
    requires Inv(c) && Drained(c) && status != IdleMode
    ensures var d := Drain(Ticked(c, status), status, reaction);
            Due(d) == [] && |d.fired| - |c.fired| == |Due(Ticked(c, status))|
  {
    TickedKeeps(c, status);
    DrainLeaves(Ticked(c, status), status, reaction);
  }

  /** Afterwards nothing is due. */
  lemma TickLeavesNone(c: Clock, status: MachineStatus, reaction: nat -> Reaction, i: nat)
    requires Inv(c) && Drained(c) && status != IdleMode && i < |Tick(c, status, reaction).queue|
    ensures Tick(c, status, reaction).queue[i].key > Tick(c, status, reaction).total
  {
    TickKeeps(c, status, reaction);
    TickDrains(c, status, reaction);
    var d := Tick(c, status, reaction);
    NoneDue(d.queue, d.total);
  }

  lemma NoneDue(queue: Queue, total: int)
    requires Sorted(queue) && Place(queue, total) == 0
    ensures forall i | 0 <= i < |queue| :: queue[i].key > total
  {
  }

  lemma DrainedAfter(d: Clock)
    requires Sorted(d.queue) && (Due(d) == [] || LoneTimer(d.queue, IdleMode))
    ensures Drained(d)
  {
  }

  lemma IdleKeeps(c: Clock, reaction: nat -> Reaction)
    requires Inv(c) && Drained(c)
    ensures Inv(Idled(c, reaction)) && Drained(Idled(c, reaction))
  {
    CheckKeeps(c, IdleMode, true, reaction);
    if Fires(c, IdleMode, true) {
      var c' := Check(c, IdleMode, true, reaction);
      DrainKeeps(c', IdleMode, reaction);
      DrainLeaves(c', IdleMode, reaction);
      DrainedAfter(Drain(c', IdleMode, reaction));
    }
  }

  function Max(x: int, y: int): int {
    if x < y then y else x
  }

  /**
   * Idling moves the clock to the head's due time, if that is still to come, and fires the head then. With nothing but
   * one timer to wait for it fires nothing and leaves the queue as it is: the machine halts.
   */
  lemma IdleFires(c: Clock, reaction: nat -> Reaction)
    ensures var c' := Idled(c, reaction);
            && c'.system == c.system && c'.user == c.user
            && c'.total == (if c.queue == [] then c.total else Max(c.total, c.queue[0].key))
            && (if c.queue == [] || (|c.queue| == 1 && c.queue[0].item.kind == TimerInt)
                then c'.fired == c.fired && c'.queue == c.queue && c'.scheduled == c.scheduled
                else |c'.fired| > |c.fired| && c.fired <= c'.fired
                     && c'.fired[|c.fired|] == Firing(c.queue[0].item, c'.total))
  {
    if Fires(c, IdleMode, true) {
      FireProgress(Advance(c), reaction);
      DrainKeepsClock(Fire(Advance(c), reaction), IdleMode, reaction);
      DrainFires(Fire(Advance(c), reaction), IdleMode, reaction);
    }
  }

  // Every run, for all devices

  /** A tick can come in system or in user mode; SwitchOp is a call of YieldOnReturn. */
  datatype Op = ScheduleOp(request: Request) | TickOp(inUser: bool) | IdleOp | SwitchOp

  function Exec(c: Clock, op: Op, reaction: nat -> Reaction): Clock {
    match op
    case ScheduleOp(r) => Add(c, r.fromNow, r.kind)
    case TickOp(inUser) => Tick(c, if inUser then UserMode else SystemMode, reaction)
    case IdleOp => Idled(c, reaction)
    case SwitchOp => c.(yieldOnReturn := true)
  }

  const START := Clock([], false, 0, 0, 0, 0, [], [])

  predicate Run(states: seq<Clock>, ops: seq<Op>, reaction: nat -> Reaction) {
    && |states| == |ops| + 1 && states[0] == START
    && forall i | 0 <= i < |ops| :: states[i + 1] == Exec(states[i], ops[i], reaction)
  }

  lemma InsertDrained(queue: Queue, e: Entry<Pending>, total: int)
    requires e.key > total
    requires forall i | 0 <= i < |queue| && queue[i].key <= total :: i == 0 && queue[i].item.kind == TimerInt
    ensures var q := Inserted(queue, e);
            forall i | 0 <= i < |q| && q[i].key <= total :: i == 0 && q[i].item.kind == TimerInt
  {
    InsertedAt(queue, e);
  }

  lemma AddDrained(c: Clock, fromNow: int, kind: IntType)
    requires Drained(c) && fromNow > 0
    ensures Drained(Add(c, fromNow, kind))
  {
    InsertDrained(c.queue, Entry(c.total + fromNow, Pending(|c.scheduled|, c.total + fromNow, kind)), c.total);
  }

  lemma ExecKeeps(c: Clock, op: Op, reaction: nat -> Reaction)
    requires Inv(c) && Drained(c)
    ensures Inv(Exec(c, op, reaction)) && Drained(Exec(c, op, reaction))
  {
    match op
    case ScheduleOp(r) =>
      AddKeeps(c, r.fromNow, r.kind);
      AddDrained(c, r.fromNow, r.kind);
    case TickOp(inUser) => TickKeeps(c, if inUser then UserMode else SystemMode, reaction);
    case IdleOp => IdleKeeps(c, reaction);
    case SwitchOp =>
  }

  lemma {:induction false} RunsKeepInv(states: seq<Clock>, ops: seq<Op>, reaction: nat -> Reaction, i: nat)
    requires Run(states, ops, reaction) && i < |states|
    ensures Inv(states[i]) && Drained(states[i])
  {
    if i > 0 {
      RunsKeepInv(states, ops, reaction, i - 1);
      ExecKeeps(states[i - 1], ops[i - 1], reaction);
    }
  }

  lemma {:induction false} InOrder(fired: seq<Firing>, i: nat, j: nat)
    requires i <= j < |fired| && forall k | 0 <= k < |fired| :: OnTimeAt(fired, k)
    ensures fired[i].what.when <= fired[j].what.when && fired[i].at <= fired[j].at
    decreases j
  {
    if i < j {
      InOrder(fired, i, j - 1);
      assert OnTimeAt(fired, j);
    }
  }

  /** Never early, in order of due time, and less than ten ticks late unless it is a timer; and the ticks add up. */
  lemma FiredOnTime(states: seq<Clock>, ops: seq<Op>, reaction: nat -> Reaction, i: nat, j: nat, k: nat)
    requires Run(states, ops, reaction) && i < |states| && j <= k < |states[i].fired|
    ensures var f, g := states[i].fired[j], states[i].fired[k];
            && f.what.when <= f.at <= g.at <= states[i].total
            && f.what.when <= g.what.when
            && (f.what.kind != TimerInt ==> f.at - f.what.when < SYSTEM_TICK)
            && states[i].total == states[i].idle + states[i].system + states[i].user
  {
    RunsKeepInv(states, ops, reaction, i);
    var fired := states[i].fired;
    InOrder(fired, j, k);
    InOrder(fired, k, |fired| - 1);
    assert OnTimeAt(fired, j);
  }

  lemma TwiceCounts<T>(s: seq<T>, i: nat, j: nat)
    requires i < j < |s| && s[i] == s[j]
    ensures multiset(s)[s[i]] >= 2
  {
    assert s == s[..j] + s[j..];
    assert s[i] in s[..j] && s[j] in s[j..];
  }

  lemma {:induction false} NumberedOnce(scheduled: seq<Pending>, p: Pending)
    requires forall i | 0 <= i < |scheduled| :: NumberedAt(scheduled, i)
    ensures multiset(scheduled)[p] == if p.id < |scheduled| && scheduled[p.id] == p then 1 else 0
  {
    if scheduled != [] {
      var n := |scheduled| - 1;
      var rest := scheduled[..n];
      assert scheduled == rest + [scheduled[n]];
      assert NumberedAt(scheduled, n);
      forall i | 0 <= i < n ensures NumberedAt(rest, i) {
        assert NumberedAt(scheduled, i);
      }
      NumberedOnce(rest, p);
    }
  }

  /** No interrupt fires twice, and none is lost: it waits in the queue until it has fired. */
  lemma FiredOnce(states: seq<Clock>, ops: seq<Op>, reaction: nat -> Reaction, i: nat, id: nat)
    requires Run(states, ops, reaction) && i < |states| && id < |states[i].scheduled|
    ensures var c := states[i];
            var p := c.scheduled[id];
            && p.id == id
            && multiset(Items(c.queue))[p] + multiset(Whats(c.fired))[p] == 1
            && forall j, k | 0 <= j < k < |c.fired| :: c.fired[j].what.id != c.fired[k].what.id
  {
    RunsKeepInv(states, ops, reaction, i);
    var c := states[i];
    assert NumberedAt(c.scheduled, id);
    NumberedOnce(c.scheduled, c.scheduled[id]);
    forall j, k | 0 <= j < k < |c.fired| ensures c.fired[j].what.id != c.fired[k].what.id {
      var w := Whats(c.fired);
      assert w[j] in multiset(w) && w[k] in multiset(w);
      NumberedOnce(c.scheduled, w[j]);
      NumberedOnce(c.scheduled, w[k]);
      if w[j].id == w[k].id {
        TwiceCounts(w, j, k);
        assert false;
      }
    }
  }

  // Interrupts due at the same time

  /** Due earlier, or due together and scheduled earlier. */
  predicate Earlier(p: Pending, q: Pending) {
    p.when < q.when || (p.when == q.when && p.id < q.id)
  }

  predicate WaitInOrder(queue: Queue, i: int, j: int)
    requires 0 <= i < |queue| && 0 <= j < |queue|
  {
    Earlier(queue[i].item, queue[j].item)
  }

  predicate ById(queue: Queue) {
    forall i, j | 0 <= i < j < |queue| :: WaitInOrder(queue, i, j)
  }

  predicate FireInOrder(fired: seq<Firing>, i: int, j: int)
    requires 0 <= i < |fired| && 0 <= j < |fired|
  {
    Earlier(fired[i].what, fired[j].what)
  }

  /** First come, first served: the log is in order of due time and, among equals, of scheduling. */
  predicate FiredById(fired: seq<Firing>) {
    forall i, j | 0 <= i < j < |fired| :: FireInOrder(fired, i, j)
  }

  predicate FiredFirst(fired: seq<Firing>, queue: Queue, i: int, j: int)
    requires 0 <= i < |fired| && 0 <= j < |queue|
  {
    Earlier(fired[i].what, queue[j].item)
  }

  /** All that has fired comes before all that waits. */
  predicate BehindFired(fired: seq<Firing>, queue: Queue) {
    forall i, j | 0 <= i < |fired| && 0 <= j < |queue| :: FiredFirst(fired, queue, i, j)
  }

  /** Everything is in order so far: what has fired, what waits, and the one before the other. */
  predicate Served(fired: seq<Firing>, queue: Queue) {
    FiredById(fired) && ById(queue) && BehindFired(fired, queue)
  }

  /** The head can be taken off and put back without changing places with an equal. */
  predicate HeadAlone(queue: Queue) {
    |queue| <= 1 || queue[0].key < queue[1].key
  }

  lemma KnownIds(c: Clock)
    requires Inv(c)
    ensures forall i | 0 <= i < |c.queue| ::
              c.queue[i].item.id < |c.scheduled| && c.queue[i].item.when == c.queue[i].key
    ensures forall i | 0 <= i < |c.fired| :: c.fired[i].what.id < |c.scheduled|
  {
    forall i | 0 <= i < |c.queue| ensures c.queue[i].item.id < |c.scheduled| && c.queue[i].item.when == c.queue[i].key {
      assert KeyedAt(c.queue, c.total, i);
      assert Items(c.queue)[i] in multiset(Items(c.queue));
      NumberedOnce(c.scheduled, c.queue[i].item);
    }
    forall i | 0 <= i < |c.fired| ensures c.fired[i].what.id < |c.scheduled| {
      assert Whats(c.fired)[i] in multiset(Whats(c.fired));
      NumberedOnce(c.scheduled, c.fired[i].what);
    }
  }

  lemma InsertById(queue: Queue, e: Entry<Pending>)
    requires ById(queue) && e.key == e.item.when
    requires forall i | 0 <= i < |queue| :: queue[i].item.id < e.item.id && queue[i].item.when == queue[i].key
    ensures ById(Inserted(queue, e))
  {
    InsertedAt(queue, e);
    var k, q := Place(queue, e.key), Inserted(queue, e);
    forall j | k <= j < |queue| ensures e.key < queue[j].key {
      assert j > k ==> WaitInOrder(queue, k, j);
    }
    forall i, j | 0 <= i < j < |q| ensures WaitInOrder(q, i, j) {
      var i', j' := if i < k then i else i - 1, if j < k then j else j - 1;
      if i != k && j != k {
        assert WaitInOrder(queue, i', j');
      }
    }
  }

  lemma InsertBehind(fired: seq<Firing>, queue: Queue, e: Entry<Pending>)
    requires BehindFired(fired, queue) && forall i | 0 <= i < |fired| :: Earlier(fired[i].what, e.item)
    ensures BehindFired(fired, Inserted(queue, e))
  {
    InsertedAt(queue, e);
    var k, q := Place(queue, e.key), Inserted(queue, e);
    forall i, j | 0 <= i < |fired| && 0 <= j < |q| ensures FiredFirst(fired, q, i, j) {
      if j != k {
        assert FiredFirst(fired, queue, i, if j < k then j else j - 1);
      }
    }
  }

  lemma InsertServed(fired: seq<Firing>, queue: Queue, e: Entry<Pending>)
    requires Served(fired, queue) && e.key == e.item.when
    requires forall i | 0 <= i < |fired| :: Earlier(fired[i].what, e.item)
    requires forall i | 0 <= i < |queue| :: queue[i].item.id < e.item.id && queue[i].item.when == queue[i].key
    ensures Served(fired, Inserted(queue, e))
  {
    InsertById(queue, e);
    InsertBehind(fired, queue, e);
  }

  lemma FiredBefore(c: Clock, p: Pending)
    requires Inv(c) && p.when > c.total
    ensures forall i | 0 <= i < |c.fired| :: Earlier(c.fired[i].what, p)
  {
    forall i | 0 <= i < |c.fired| ensures Earlier(c.fired[i].what, p) {
      InOrder(c.fired, i, |c.fired| - 1);
      assert OnTimeAt(c.fired, |c.fired| - 1);
    }
  }

  /** Scheduling keeps the order. */
  lemma AddServed(c: Clock, fromNow: int, kind: IntType)
    requires Inv(c) && fromNow > 0 && Served(c.fired, c.queue)
    ensures Served(Add(c, fromNow, kind).fired, Add(c, fromNow, kind).queue)
  {
    var p := Pending(|c.scheduled|, c.total + fromNow, kind);
    KnownIds(c);
    FiredBefore(c, p);
    InsertServed(c.fired, c.queue, Entry(p.when, p));
  }

  lemma {:induction false} AddFirstServed(c: Clock, requests: seq<Request>, n: nat)
    requires Inv(c) && n <= |requests| && Served(c.fired, c.queue)
    ensures Served(AddFirst(c, requests, n).fired, AddFirst(c, requests, n).queue)
  {
    if n > 0 {
      var before, r := AddFirst(c, requests, n - 1), requests[n - 1];
      AddFirstServed(c, requests, n - 1);
      AddFirstKeeps(c, requests, n - 1);
      AddServed(before, r.fromNow, r.kind);
      assert AddFirst(c, requests, n) == Add(before, r.fromNow, r.kind);
    }
  }

  lemma TakeServed(fired: seq<Firing>, queue: Queue, at: int)
    requires Served(fired, queue) && queue != []
    ensures Served(fired + [Firing(queue[0].item, at)], queue[1..])
  {
    var f, q := fired + [Firing(queue[0].item, at)], queue[1..];
    forall i, j | 0 <= i < j < |f| ensures FireInOrder(f, i, j) {
      assert if j < |fired| then FireInOrder(fired, i, j) else FiredFirst(fired, queue, i, 0);
    }
    forall i, j | 0 <= i < j < |q| ensures WaitInOrder(q, i, j) {
      assert WaitInOrder(queue, i + 1, j + 1);
    }
    forall i, j | 0 <= i < |f| && 0 <= j < |q| ensures FiredFirst(f, q, i, j) {
      assert if i < |fired| then FiredFirst(fired, queue, i, j + 1) else WaitInOrder(queue, 0, j + 1);
    }
  }

  /** So does firing, whatever the handler schedules. */
  lemma FireServed(c: Clock, reaction: nat -> Reaction)
    requires Inv(c) && c.queue != [] && c.queue[0].key <= c.total && Served(c.fired, c.queue)
    ensures var c' := Fire(c, reaction); Served(c'.fired, c'.queue)
  {
    TakeServed(c.fired, c.queue, c.total);
    TakeKeepsPlaces(c.scheduled, c.queue, c.fired, c.total);
    TakeKeepsOrder(c.queue, c.fired, c.total);
    var r := reaction(c.queue[0].item.id);
    AddFirstServed(TakeHead(c), r.requests, |r.requests|);
  }

  /** A check that does not fire keeps the order if and only if the head it puts back has no equal. */
  lemma PutBackServed(c: Clock)
    requires Inv(c) && c.queue != [] && ById(c.queue)
    ensures ById(PutBack(c).queue) <==> HeadAlone(c.queue)
    ensures HeadAlone(c.queue) ==> PutBack(c).queue == c.queue
  {
    KnownIds(c);
    var q := c.queue;
    forall i | 0 < i < |q| ensures q[i] != q[0] {
      assert WaitInOrder(q, 0, i);
    }
    PutBackKeepsOrder(q);
    if !HeadAlone(q) {
      var r := PutBack(c).queue;
      InsertedAt(q[1..], q[0]);
      var k := Place(q[1..], q[0].key);
      assert k > 0 && r[0] == q[1] && r[k] == q[0];
      assert WaitInOrder(q, 0, 1);
      assert !WaitInOrder(r, 0, k);
    }
  }

  /** The state in which the drain loop makes its last check. */
  function LastCheck(c: Clock, status: MachineStatus, reaction: nat -> Reaction): Clock
    decreases |Due(c)|
  {
    if Fires(c, status, false) then
      FireProgress(c, reaction);
      LastCheck(Fire(c, reaction), status, reaction)
    else c
  }

  lemma {:induction false} DrainServed(c: Clock, status: MachineStatus, reaction: nat -> Reaction)
    requires Inv(c) && Served(c.fired, c.queue)
    ensures var c' := Drain(c, status, reaction);
            Served(c'.fired, c'.queue) <==> HeadAlone(LastCheck(c, status, reaction).queue)
    decreases |Due(c)|
  {
    if Fires(c, status, false) {
      FireKeeps(c, reaction);
      FireProgress(c, reaction);
      FireServed(c, reaction);
      DrainServed(Fire(c, reaction), status, reaction);
    } else if c.queue != [] {
      PutBackServed(c);
    }
  }

  /** No put-back of this operation meets an equal. */
  predicate Smooth(c: Clock, op: Op, reaction: nat -> Reaction) {
    match op
    case TickOp(inUser) =>
      var status := if inUser then UserMode else SystemMode;
      HeadAlone(LastCheck(Ticked(c, status), status, reaction).queue)
    case IdleOp =>
      if Fires(c, IdleMode, true)
      then HeadAlone(LastCheck(Fire(Advance(c), reaction), IdleMode, reaction).queue)
      else HeadAlone(c.queue)
    case _ => true
  }

  lemma ExecServed(c: Clock, op: Op, reaction: nat -> Reaction)
    requires Inv(c) && Drained(c) && Served(c.fired, c.queue)
    ensures var c' := Exec(c, op, reaction); Served(c'.fired, c'.queue) <==> Smooth(c, op, reaction)
  {
    match op
    case ScheduleOp(r) => AddServed(c, r.fromNow, r.kind);
    case TickOp(inUser) =>
      var status := if inUser then UserMode else SystemMode;
      TickedKeeps(c, status);
      DrainServed(Ticked(c, status), status, reaction);
    case IdleOp => IdleServed(c, reaction);
    case SwitchOp =>
  }

  lemma IdleServed(c: Clock, reaction: nat -> Reaction)
    requires Inv(c) && Served(c.fired, c.queue)
    ensures var c' := Idled(c, reaction); Served(c'.fired, c'.queue) <==> Smooth(c, IdleOp, reaction)
  {
    if c.queue != [] {
      AdvanceKeeps(c);
      if Fires(c, IdleMode, true) {
        FireKeeps(Advance(c), reaction);
        FireServed(Advance(c), reaction);
        DrainServed(Fire(Advance(c), reaction), IdleMode, reaction);
      } else {
        PutBackServed(Advance(c));
      }
    }
  }

  lemma {:induction false} SmoothRunsServe(states: seq<Clock>, ops: seq<Op>, reaction: nat -> Reaction, n: nat)
    requires Run(states, ops, reaction) && n < |states|
    requires forall j | 0 <= j < n :: Smooth(states[j], ops[j], reaction)
    ensures Served(states[n].fired, states[n].queue)
  {
    if n > 0 {
      SmoothRunsServe(states, ops, reaction, n - 1);
      RunsKeepInv(states, ops, reaction, n - 1);
      ExecServed(states[n - 1], ops[n - 1], reaction);
    }
  }

  /**
   * Interrupts due together are served in the order of scheduling, in all that has fired and all that waits, up to any
   * point of a run if and only if no put-back before it met an equal.
   */
  lemma FirstComeFirstServed(states: seq<Clock>, ops: seq<Op>, reaction: nat -> Reaction, n: nat)
    requires Run(states, ops, reaction) && n < |states|
    ensures (forall i | 0 <= i <= n :: Served(states[i].fired, states[i].queue)) <==>
            (forall j | 0 <= j < n :: Smooth(states[j], ops[j], reaction))
  {
    if forall j | 0 <= j < n :: Smooth(states[j], ops[j], reaction) {
      forall i | 0 <= i <= n ensures Served(states[i].fired, states[i].queue) {
        SmoothRunsServe(states, ops, reaction, i);
      }
    }
    if forall i | 0 <= i <= n :: Served(states[i].fired, states[i].queue) {
      forall j | 0 <= j < n ensures Smooth(states[j], ops[j], reaction) {
        RunsKeepInv(states, ops, reaction, j);
        assert Served(states[j].fired, states[j].queue) && Served(states[j + 1].fired, states[j + 1].queue);
        ExecServed(states[j], ops[j], reaction);
      }
    }
  }

  /** A tick fires in order of due time and scheduling if and only if what came due is in that order in the queue. */
  lemma TickServesIff(c: Clock, status: MachineStatus, reaction: nat -> Reaction)
    requires Inv(c) && Drained(c) && status != IdleMode
    ensures var f := Tick(c, status, reaction).fired;
            c.fired <= f && (FiredById(f[|c.fired|..]) <==> ById(Due(Ticked(c, status))))
  {
    var n := TickFires(c, status, reaction);
    var t := Ticked(c, status);
    assert Due(t) == c.queue[..n];
    assert Tick(c, status, reaction).fired[|c.fired|..] == Fired(Due(t), t.total);
    FiredAsQueued(Due(t), t.total);
  }

  lemma FiredAsQueued(due: Queue, at: int)
    ensures FiredById(Fired(due, at)) <==> ById(due)
  {
    if FiredById(Fired(due, at)) {
      forall i, j | 0 <= i < j < |due| ensures WaitInOrder(due, i, j) {
        assert FireInOrder(Fired(due, at), i, j);
      }
    }
    if ById(due) {
      forall i, j | 0 <= i < j < |due| ensures FireInOrder(Fired(due, at), i, j) {
        assert WaitInOrder(due, i, j);
      }
    }
  }

  // A run in which an interrupt is overtaken: `FIRST` and `SECOND` are due together

  const FIRST := Pending(0, 20, DiskInt)
  const SECOND := Pending(1, 20, DiskInt)
  const ONE_WAITS := Clock([Entry(20, FIRST)], false, 0, 0, 0, 0, [FIRST], [])
  const BOTH_WAIT := Clock([Entry(20, FIRST), Entry(20, SECOND)], false, 0, 0, 0, 0, [FIRST, SECOND], [])
  const PUT_BACK := Clock([Entry(20, SECOND), Entry(20, FIRST)], false, 10, 0, 10, 0, [FIRST, SECOND], [])
  const BOTH_FIRED :=
    Clock([], false, 20, 0, 20, 0, [FIRST, SECOND], [Firing(SECOND, 20), Firing(FIRST, 20)])

  function Quiet(id: nat): Reaction {
    Reaction([], false)
  }

  lemma FirstTickPutsBack()
    ensures Tick(BOTH_WAIT, SystemMode, Quiet) == PUT_BACK
  {
    var t := Ticked(BOTH_WAIT, SystemMode);
    assert !Fires(t, SystemMode, false);
    assert PutBack(t).queue == PUT_BACK.queue;
  }

  lemma SecondTickFires()
    ensures Tick(PUT_BACK, SystemMode, Quiet) == BOTH_FIRED
  {
    var t := Ticked(PUT_BACK, SystemMode);
    var u := Fire(t, Quiet);
    assert u.queue == [Entry(20, FIRST)] && u.fired == [Firing(SECOND, 20)];
    var v := Fire(u, Quiet);
    assert v == BOTH_FIRED;
    assert Drain(t, SystemMode, Quiet) == Drain(u, SystemMode, Quiet) == Drain(v, SystemMode, Quiet) == v;
  }

  lemma BothScheduled()
    ensures Add(START, 20, DiskInt) == ONE_WAITS && Add(ONE_WAITS, 20, DiskInt) == BOTH_WAIT
  {
    assert Add(START, 20, DiskInt).queue == ONE_WAITS.queue;
    assert Add(ONE_WAITS, 20, DiskInt).queue == BOTH_WAIT.queue;
  }

  /** Two interrupts due together fire in the other order: the tick before, the first was looked at and put back. */
  lemma OvertakenInterrupt() returns (states: seq<Clock>, ops: seq<Op>)
    ensures Run(states, ops, Quiet) && |ops| == 4 && ops[0] == ops[1] == ScheduleOp(Request(20, DiskInt))
    ensures states[4].fired == [Firing(SECOND, 20), Firing(FIRST, 20)] && !FiredById(states[4].fired)
  {
    BothScheduled();
    FirstTickPutsBack();
    SecondTickFires();
    states := [START, ONE_WAITS, BOTH_WAIT, PUT_BACK, BOTH_FIRED];
    ops := [ScheduleOp(Request(20, DiskInt)), ScheduleOp(Request(20, DiskInt)), TickOp(false), TickOp(false)];
    forall i | 0 <= i < 4 ensures states[i + 1] == Exec(states[i], ops[i], Quiet) {
      assert i == 0 || i == 1 || i == 2 || i == 3;
    }
    assert !FireInOrder(BOTH_FIRED.fired, 0, 1);
  }

  // What a run schedules, and when it switches

  /** A due time and a kind: what is asked for when an interrupt is scheduled. */
  datatype Ask = Ask(when: int, kind: IntType)

  function Asked(scheduled: seq<Pending>): (r: seq<Ask>)
    ensures |r| == |scheduled| && forall i | 0 <= i < |r| :: r[i] == Ask(scheduled[i].when, scheduled[i].kind)
  {
    seq(|scheduled|, i requires 0 <= i < |scheduled| => Ask(scheduled[i].when, scheduled[i].kind))
  }

  /** What requests made at time `at` ask for. */
  function Asks(requests: seq<Request>, at: int): (r: seq<Ask>)
    ensures |r| == |requests| && forall i | 0 <= i < |r| :: r[i] == Ask(at + requests[i].fromNow, requests[i].kind)
  {
    seq(|requests|, i requires 0 <= i < |requests| => Ask(at + requests[i].fromNow, requests[i].kind))
  }

  /** What the handlers of the firings from place `k` on ask for, one after the other. */
  function Answers(fired: seq<Firing>, k: nat, reaction: nat -> Reaction): seq<Ask>
    requires k <= |fired|
    decreases |fired| - k
  {
    if k == |fired| then []
    else Asks(reaction(fired[k].what.id).requests, fired[k].at) + Answers(fired, k + 1, reaction)
  }

  predicate AnySwitches(fired: seq<Firing>, k: nat, reaction: nat -> Reaction)
    requires k <= |fired|
    decreases |fired| - k
  {
    k < |fired| && (reaction(fired[k].what.id).switches || AnySwitches(fired, k + 1, reaction))
  }

  lemma {:induction false} SwitchesExactly(fired: seq<Firing>, k: nat, reaction: nat -> Reaction)
    requires k <= |fired|
    ensures AnySwitches(fired, k, reaction) <==> exists i :: k <= i < |fired| && reaction(fired[i].what.id).switches
    decreases |fired| - k
  {
    if k < |fired| {
      SwitchesExactly(fired, k + 1, reaction);
    }
  }

  lemma AskedMore(scheduled: seq<Pending>, p: Pending)
    ensures Asked(scheduled + [p]) == Asked(scheduled) + [Ask(p.when, p.kind)]
  {
  }

  lemma AsksMore(requests: seq<Request>, n: nat, at: int)
    requires 0 < n <= |requests|
    ensures Asks(requests[..n], at)
            == Asks(requests[..n - 1], at) + [Ask(at + requests[n - 1].fromNow, requests[n - 1].kind)]
  {
  }

  lemma Rejoined<T>(a: seq<T>, b: seq<T>, c: seq<T>)
    ensures a + b + c == a + (b + c)
  {
  }

  lemma {:induction false} AddFirstSchedules(c: Clock, requests: seq<Request>, n: nat)
    requires n <= |requests|
    ensures Asked(AddFirst(c, requests, n).scheduled) == Asked(c.scheduled) + Asks(requests[..n], c.total)
    ensures AddFirst(c, requests, n).total == c.total
  {
    if n > 0 {
      AddFirstSchedules(c, requests, n - 1);
      var before, r := AddFirst(c, requests, n - 1), requests[n - 1];
      AskedMore(before.scheduled, Pending(|before.scheduled|, c.total + r.fromNow, r.kind));
      AsksMore(requests, n, c.total);
      Rejoined(Asked(c.scheduled), Asks(requests[..n - 1], c.total), [Ask(c.total + r.fromNow, r.kind)]);
    }
  }

  /**
   * A handler's requests are scheduled, all of them and in order, and nothing else is; a switch it asks for is noted.
   */
  lemma FireSchedules(c: Clock, reaction: nat -> Reaction)
    requires c.queue != []
    ensures var (c', r) := (Fire(c, reaction), reaction(c.queue[0].item.id));
            && Asked(c'.scheduled) == Asked(c.scheduled) + Asks(r.requests, c.total)
            && c'.yieldOnReturn == (c.yieldOnReturn || r.switches)
  {
    var r := reaction(c.queue[0].item.id);
    AddFirstSchedules(TakeHead(c), r.requests, |r.requests|);
    assert r.requests[..|r.requests|] == r.requests;
  }

  /**
   * `d` has scheduled what the handlers of its new firings asked for, and holds the request for a switch if any did.
   */
  ghost predicate Answered(c: Clock, d: Clock, reaction: nat -> Reaction) {
    && |c.fired| <= |d.fired|
    && Asked(d.scheduled) == Asked(c.scheduled) + Answers(d.fired, |c.fired|, reaction)
    && d.yieldOnReturn == (c.yieldOnReturn || AnySwitches(d.fired, |c.fired|, reaction))
  }

  lemma AnsweredNothing(c: Clock, d: Clock, reaction: nat -> Reaction)
    requires d.scheduled == c.scheduled && d.fired == c.fired && d.yieldOnReturn == c.yieldOnReturn
    ensures Answered(c, d, reaction)
  {
  }

  lemma AnsweredFirst(c: Clock, c': Clock, d: Clock, f: Firing, reaction: nat -> Reaction)
    requires c'.fired == c.fired + [f] && c'.fired <= d.fired && Answered(c', d, reaction)
    requires Asked(c'.scheduled) == Asked(c.scheduled) + Asks(reaction(f.what.id).requests, f.at)
    requires c'.yieldOnReturn == (c.yieldOnReturn || reaction(f.what.id).switches)
    ensures Answered(c, d, reaction)
  {
    var k := |c.fired|;
    assert d.fired[k] == c'.fired[k] == f;
    Rejoined(Asked(c.scheduled), Asks(reaction(f.what.id).requests, f.at), Answers(d.fired, k + 1, reaction));
  }

  lemma FireAnswers(c: Clock, d: Clock, reaction: nat -> Reaction)
    requires c.queue != [] && c.queue[0].key <= c.total
    requires Fire(c, reaction).fired <= d.fired && Answered(Fire(c, reaction), d, reaction)
    ensures Answered(c, d, reaction)
  {
    FireProgress(c, reaction);
    FireSchedules(c, reaction);
    AnsweredFirst(c, Fire(c, reaction), d, Firing(c.queue[0].item, c.total), reaction);
  }

  lemma {:induction false} DrainAnswers(c: Clock, status: MachineStatus, reaction: nat -> Reaction)
    ensures c.fired <= Drain(c, status, reaction).fired && Answered(c, Drain(c, status, reaction), reaction)
    decreases |Due(c)|
  {
    DrainFires(c, status, reaction);
    var d := Drain(c, status, reaction);
    if Fires(c, status, false) {
      FireProgress(c, reaction);
      DrainAnswers(Fire(c, reaction), status, reaction);
      FireAnswers(c, d, reaction);
    } else {
      AnsweredNothing(c, d, reaction);
    }
  }

  lemma CheckAnswers(c: Clock, status: MachineStatus, advance: bool, reaction: nat -> Reaction)
    ensures Answered(c, Check(c, status, advance, reaction), reaction)
  {
    var d := Check(c, status, advance, reaction);
    if Fires(c, status, advance) {
      var a := if advance then Advance(c) else c;
      AnsweredNothing(d, d, reaction);
      FireAnswers(a, d, reaction);
    } else {
      AnsweredNothing(c, d, reaction);
    }
  }

  lemma IdleAnswers(c: Clock, reaction: nat -> Reaction)
    ensures var d := Idled(c, reaction);
            |c.fired| <= |d.fired| && Asked(d.scheduled) == Asked(c.scheduled) + Answers(d.fired, |c.fired|, reaction)
  {
    if Fires(c, IdleMode, true) {
      var c' := Fire(Advance(c), reaction);
      DrainAnswers(c', IdleMode, reaction);
      FireAnswers(Advance(c), Drain(c', IdleMode, reaction), reaction);
    } else {
      AnsweredNothing(c, Idled(c, reaction), reaction);
    }
  }

  /** What a run must have scheduled: what was asked for from outside, and by the handlers of what has fired. */
  function Expected(states: seq<Clock>, ops: seq<Op>, reaction: nat -> Reaction, n: nat): seq<Ask>
    requires |states| == |ops| + 1 && n < |states|
    requires forall i | 0 <= i < |ops| :: |states[i].fired| <= |states[i + 1].fired|
  {
    if n == 0 then []
    else
      Expected(states, ops, reaction, n - 1)
      + match ops[n - 1]
        case ScheduleOp(r) => [Ask(states[n - 1].total + r.fromNow, r.kind)]
        case _ => Answers(states[n].fired, |states[n - 1].fired|, reaction)
  }

  lemma ExecSchedules(c: Clock, op: Op, reaction: nat -> Reaction)
    ensures var d := Exec(c, op, reaction);
            && |c.fired| <= |d.fired|
            && Asked(d.scheduled) == Asked(c.scheduled) + match op
                                                          case ScheduleOp(r) => [Ask(c.total + r.fromNow, r.kind)]
                                                          case _ => Answers(d.fired, |c.fired|, reaction)
  {
    match op
    case ScheduleOp(r) => AskedMore(c.scheduled, Pending(|c.scheduled|, c.total + r.fromNow, r.kind));
    case TickOp(inUser) =>
      var status := if inUser then UserMode else SystemMode;
      DrainAnswers(Ticked(c, status), status, reaction);
    case IdleOp => IdleAnswers(c, reaction);
    case SwitchOp => AnsweredNothing(c, c, reaction);
  }

  lemma FiredGrows(states: seq<Clock>, ops: seq<Op>, reaction: nat -> Reaction)
    requires Run(states, ops, reaction)
    ensures forall i | 0 <= i < |ops| :: |states[i].fired| <= |states[i + 1].fired|
  {
    forall i | 0 <= i < |ops| ensures |states[i].fired| <= |states[i + 1].fired| {
      ExecSchedules(states[i], ops[i], reaction);
    }
  }

  /** In every run the interrupts scheduled are, in order, exactly those asked for: none is dropped and none made up. */
  lemma {:induction false} ScheduledAsAsked(states: seq<Clock>, ops: seq<Op>, reaction: nat -> Reaction, n: nat)
    requires Run(states, ops, reaction) && n < |states|
    ensures forall i | 0 <= i < |ops| :: |states[i].fired| <= |states[i + 1].fired|
    ensures Asked(states[n].scheduled) == Expected(states, ops, reaction, n)
  {
    FiredGrows(states, ops, reaction);
    if n > 0 {
      ScheduledAsAsked(states, ops, reaction, n - 1);
      ExecSchedules(states[n - 1], ops[n - 1], reaction);
    }
  }

  /** A tick ends in a context switch if and only if one was asked for before it or by a handler that it runs. */
  lemma TickSwitches(c: Clock, status: MachineStatus, reaction: nat -> Reaction)
    ensures var d := Drain(Ticked(c, status), status, reaction);
            && |c.fired| <= |d.fired| && Tick(c, status, reaction).fired == d.fired
            && (d.yieldOnReturn <==>
                c.yieldOnReturn || exists i :: |c.fired| <= i < |d.fired| && reaction(d.fired[i].what.id).switches)
  {
    DrainAnswers(Ticked(c, status), status, reaction);
    SwitchesExactly(Drain(Ticked(c, status), status, reaction).fired, |c.fired|, reaction);
  }

  /** How many of the first `n` operations are ticks of that mode. */
  function Ticks(ops: seq<Op>, inUser: bool, n: nat): nat
    requires n <= |ops|
  {
    if n == 0 then 0 else Ticks(ops, inUser, n - 1) + if ops[n - 1] == TickOp(inUser) then 1 else 0
  }

  lemma ExecTicks(c: Clock, op: Op, reaction: nat -> Reaction)
    ensures var d := Exec(c, op, reaction);
            && d.system == c.system + (if op == TickOp(false) then 10 else 0)
            && d.user == c.user + (if op == TickOp(true) then 1 else 0)
  {
    match op
    case TickOp(inUser) =>
      var status := if inUser then UserMode else SystemMode;
      DrainKeepsClock(Ticked(c, status), status, reaction);
    case IdleOp => IdleFires(c, reaction);
    case _ =>
  }

  /** Ten ticks are charged to the system for each tick in system mode, one to the user for each in user mode. */
  lemma {:induction false} TicksAreCharged(states: seq<Clock>, ops: seq<Op>, reaction: nat -> Reaction, n: nat)
    requires Run(states, ops, reaction) && n < |states|
    ensures states[n].system == 10 * Ticks(ops, false, n) && states[n].user == Ticks(ops, true, n)
  {
    if n > 0 {
      TicksAreCharged(states, ops, reaction, n - 1);
      ExecTicks(states[n - 1], ops[n - 1], reaction);
    }
  }

  // The object

  /**
   * The pending list is a field with the contents of the sorted list: `Inserted` is what its SortedInsert does, and
   * `pending[1..]` its SortedRemove. `reaction(i)` is what the handler call of interrupt `i` does, so that any devices
   * are some such function.
   */
  class Interrupt {
    var level: bool
    var inHandler: bool
    var yieldOnReturn: bool
    var status: MachineStatus
    var pending: Queue
    var totalTicks: int
    var idleTicks: int
    var systemTicks: int
    var userTicks: int
    var created: nat
    const reaction: nat -> Reaction
    ghost var scheduled: seq<Pending>
    ghost var fired: seq<Firing>

    ghost function State(): Clock
      reads this
    {
      Clock(pending, yieldOnReturn, totalTicks, idleTicks, systemTicks, userTicks, scheduled, fired)
    }

    ghost predicate Valid()
      reads this
    {
      created == |scheduled|
    }

    constructor (reaction: nat -> Reaction)
      ensures Valid() && State() == START && this.reaction == reaction && !level && !inHandler && status == SystemMode
    {
      level, inHandler, yieldOnReturn, status := false, false, false, SystemMode;
      pending := [];
      totalTicks, idleTicks, systemTicks, userTicks, created := 0, 0, 0, 0, 0;
      this.reaction := reaction;
      scheduled, fired := [], [];
    }

    method Schedule(fromNow: int, kind: IntType)
      requires Valid() && fromNow > 0
      modifies this`created, this`scheduled, this`pending
      ensures Valid() && State() == Add(old(State()), fromNow, kind)
    {
      var toOccur := Pending(created, totalTicks + fromNow, kind);
      created := created + 1;
      scheduled := scheduled + [toOccur];
      pending := Inserted(pending, Entry(toOccur.when, toOccur));
    }

    method ScheduleAll(requests: seq<Request>)
      requires Valid()
      modifies this`created, this`scheduled, this`pending
      ensures Valid() && State() == AddFirst(old(State()), requests, |requests|)
    {
      for k := 0 to |requests|
        invariant Valid() && State() == AddFirst(old(State()), requests, k)
      {
        Schedule(requests[k].fromNow, requests[k].kind);
        assert State() == Add(AddFirst(old(State()), requests, k), requests[k].fromNow, requests[k].kind);
      }
    }

    /** The handler of interrupt `id`, which can schedule interrupts and ask for a context switch. */
    method CallHandler(id: nat)
      requires Valid()
      modifies this`created, this`scheduled, this`yieldOnReturn, this`pending
      ensures Valid() && State() == React(old(State()), reaction(id))
    {
      ScheduleAll(reaction(id).requests);
      yieldOnReturn := yieldOnReturn || reaction(id).switches;
    }

    method Invoke(toOccur: Pending)
      requires Valid() && !inHandler
      modifies this
      ensures Valid() && !inHandler && status == old(status) && level == old(level)
      ensures var logged := old(State()).(fired := old(fired) + [Firing(toOccur, old(totalTicks))]);
              State() == React(logged, reaction(toOccur.id))
    {
      var was := status;
      inHandler := true;
      status := SystemMode;
      fired := fired + [Firing(toOccur, totalTicks)];
      assert State() == old(State()).(fired := old(fired) + [Firing(toOccur, old(totalTicks))]);
      CallHandler(toOccur.id);
      status := was;
      inHandler := false;
    }

    method CheckIfDue(advanceClock: bool) returns (any: bool)
      requires Valid() && !level && !inHandler
      modifies this
      ensures Valid() && !level && !inHandler && status == old(status)
      ensures any == old(Fires(State(), status, advanceClock))
      ensures State() == Check(old(State()), status, advanceClock, reaction)
      ensures |old(fired)| <= |fired|
      ensures Asked(scheduled) == Asked(old(scheduled)) + Answers(fired, |old(fired)|, reaction)
    {
      CheckAnswers(State(), status, advanceClock, reaction);
      if pending == [] {
        return false;
      }
      var toOccur, when := pending[0].item, pending[0].key;
      pending := pending[1..];
      if advanceClock && when > totalTicks {
        idleTicks := idleTicks + (when - totalTicks);
        totalTicks := when;
      } else if when > totalTicks {
        pending := Inserted(pending, Entry(when, toOccur));
        return false;
      }
      if status == IdleMode && toOccur.kind == TimerInt && pending == [] {
        pending := Inserted(pending, Entry(when, toOccur));
        return false;
      }
      Invoke(toOccur);
      return true;
    }

    /** The loops of OneTick and Idle. */
    method DrainQueue()
      requires Valid() && !level && !inHandler
      modifies this
      ensures Valid() && !level && !inHandler && status == old(status)
      ensures State() == Drain(old(State()), status, reaction)
    {
      var more := true;
      while more
        invariant Valid() && !level && !inHandler && status == old(status)
        invariant if more then Drain(State(), status, reaction) == Drain(old(State()), status, reaction)
                  else State() == Drain(old(State()), status, reaction)
        decreases more, |Due(State())|
      {
        ghost var c := State();
        more := CheckIfDue(false);
        if more {
          FireProgress(c, reaction);
        }
      }
    }

    /** Up to the call of Yield, if a handler asked for one; `old`, the status to put back after it, is the caller's. */
    method OneTick() returns (yielding: bool)
      requires Valid() && !inHandler && status != IdleMode
      modifies this
      ensures Valid() && !inHandler && level && State() == Tick(old(State()), old(status), reaction)
      ensures |old(fired)| <= |fired| && yielding == (old(yieldOnReturn) || AnySwitches(fired, |old(fired)|, reaction))
      ensures Asked(scheduled) == Asked(old(scheduled)) + Answers(fired, |old(fired)|, reaction)
      ensures status == if yielding then SystemMode else old(status)
    {
      if status == SystemMode {
        totalTicks := totalTicks + SYSTEM_TICK;
        systemTicks := systemTicks + SYSTEM_TICK;
      } else {
        totalTicks := totalTicks + USER_TICK;
        userTicks := userTicks + USER_TICK;
      }
      level := false;
      assert State() == Ticked(old(State()), status);
      DrainQueue();
      level := true;
      yielding := yieldOnReturn;
      if yieldOnReturn {
        yieldOnReturn := false;
        status := SystemMode;
      }
      DrainAnswers(Ticked(old(State()), old(status)), old(status), reaction);
    }

    method SetLevel(now: bool) returns (was: bool, yielding: bool)
      requires Valid() && (now ==> !inHandler && status != IdleMode)
      modifies this
      ensures Valid() && inHandler == old(inHandler) && was == old(level) && level == now
      ensures State() == if now && !was then Tick(old(State()), old(status), reaction) else old(State())
      ensures status == if yielding then SystemMode else old(status)
    {
      was, yielding := level, false;
      level := now;
      if now && !was {
        yielding := OneTick();
      }
    }

    /** False when the machine has nothing to wait for and halts. */
    method Idle() returns (running: bool)
      requires Valid() && !inHandler && !level
      modifies this
      ensures running == !(old(pending) == [] || (|old(pending)| == 1 && old(pending)[0].item.kind == TimerInt))
      ensures State() == Idled(old(State()), reaction) && !level && Valid() && !inHandler
              && (running ==> status == SystemMode)
    {
      status := IdleMode;
      running := CheckIfDue(true);
      if running {
        DrainQueue();
        yieldOnReturn := false;
        status := SystemMode;
      }
    }
  }
}
