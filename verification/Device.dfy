/**
 * The protocol that both nachos64/code/filesys/synchdisk.cc and PostOffice::Send (nachos64/code/network/post.cc) use to
 * drive a device that takes one request at a time: lock, issue, wait on a semaphore for the completion interrupt,
 * unlock.
 */
module Devices {
  import opened Options
  import opened Semaphores
  import opened Monitors

  /** `Waiting` is inside the semaphore's P; `Leaving` has been told that its request is done. */
  datatype Stage = Idle | Calling | Waiting | Leaving

  /** `scheduled` counts the completion interrupts that are pending. */
  datatype Device = Device(mon: Monitor, done: Sem, scheduled: nat, stage: seq<Stage>) {
    predicate Shaped() {
      |mon.waiting| == 0 && |mon.own| == |mon.phase| == |stage|
    }

    predicate Busy() {
      mon.holder.Some? && mon.holder.value < |stage| && stage[mon.holder.value] == Waiting
    }

    predicate MayIssue(t: Tid) {
      mon.IsInside(t) && t < |stage| && stage[t] == Calling
    }

    predicate MayReturn(t: Tid) {
      mon.IsInside(t) && t < |stage| && stage[t] == Leaving
    }

    ghost predicate StagesInv()
      requires Shaped()
    {
      forall t | 0 <= t < |stage| ::
        && (stage[t] == Idle <==> mon.phase[t] == Outside)
        && (stage[t] in {Waiting, Leaving} ==> mon.phase[t] == Inside)
        && !mon.phase[t].Parked?
    }

    /**
     * One request is in flight while a thread waits for it, as a pending interrupt or as a unit of the semaphore; else
     * none.
     */
    ghost predicate FlightInv() {
      && done.Inv()
      && (forall t | t in done.queue || t in done.woken :: t < |stage| && stage[t] == Waiting)
      && scheduled + done.value == (if Busy() then 1 else 0)
    }

    ghost predicate Inv() {
      Shaped() && mon.Inv() && StagesInv() && FlightInv()
    }
  }

  datatype Step =
    | Call(t: Tid) | TryLock(t: Tid) | SetHolder(t: Tid) | Issue(t: Tid) | TryDone(t: Tid) | Return(t: Tid) | Interrupt

  /** Issuing is not guarded by the device being idle: that it always is, is what is to be proved. */
  predicate Next(d: Device, step: Step, d': Device) {
    && d.Shaped()
    && match step
       case Call(t) =>
         d.mon.Has(t) && d.mon.phase[t] == Outside && d' == d.(mon := d.mon.Request(t), stage := d.stage[t := Calling])
       case TryLock(t) => d.mon.CanTryEnter(t) && d' == d.(mon := d.mon.TryEnter(t))
       case SetHolder(t) => d.mon.Has(t) && d.mon.phase[t] == Entered && d' == d.(mon := d.mon.TakeHolder(t))
       case Issue(t) => d.MayIssue(t) && d' == d.(scheduled := d.scheduled + 1, stage := d.stage[t := Waiting])
       case TryDone(t) =>
         && d.mon.IsInside(t) && d.stage[t] == Waiting && t !in d.done.queue
         && d' == d.(done := d.done.Try(t), stage := if d.done.value > 0 then d.stage[t := Leaving] else d.stage)
       case Return(t) => d.MayReturn(t) && d' == d.(mon := d.mon.Release(t), stage := d.stage[t := Idle])
       case Interrupt => d.scheduled > 0 && d' == d.(scheduled := d.scheduled - 1, done := d.done.V())
  }

  function Fresh(threads: nat): Device {
    Device(Monitors.Fresh(threads, 0), Sem(0, [], {}), 0, seq(threads, t => Idle))
  }

  lemma FreshKeeps(threads: nat)
    ensures Fresh(threads).Inv()
  {
    FreshInv(threads, 0);
  }

  /** A request is issued only when no completion is pending: the device never sees two at once. */
  lemma IssueKeeps(d: Device, t: Tid, d': Device)
    requires d.Inv() && Next(d, Issue(t), d')
    ensures d.scheduled == 0 && d.done.value == 0 && d'.Inv()
  {
    assert d.mon.holder == Some(t);
  }

  lemma OnlyWaiter(d: Device, u: Tid, t: Tid)
    requires d.Shaped() && d.mon.Inv() && d.StagesInv() && t < |d.stage| && u < |d.stage|
    requires d.stage[t] == Waiting && d.stage[u] == Waiting
    ensures u == t
  {
    assert d.mon.phase[t] == Inside && d.mon.phase[u] == Inside;
  }

  lemma DoneKeeps(d: Device, t: Tid, d': Device)
    requires d.Inv() && Next(d, TryDone(t), d')
    ensures d'.Inv()
  {
    TryKeeps(d.done, t);
    assert d.mon.holder == Some(t);
    forall u | u in d'.done.queue || u in d'.done.woken ensures u < |d'.stage| && d'.stage[u] == Waiting {
      if d.done.value > 0 {
        OnlyWaiter(d, u, t);
      }
    }
  }

  lemma ReturnKeeps(d: Device, t: Tid, d': Device)
    requires d.Inv() && Next(d, Return(t), d')
    ensures d'.Inv()
  {
    ReleaseKeeps(d.mon, t);
    assert d.mon.holder == Some(t);
    ReturnFlight(d, t, d');
  }

  lemma ReturnFlight(d: Device, t: Tid, d': Device)
    requires d.Shaped() && d.FlightInv() && d.mon.holder == Some(t) && Next(d, Return(t), d')
    ensures d'.FlightInv()
  {
  }

  /** A thread that calls, or moves on towards the lock's inside. */
  lemma MoveKeeps(d: Device, t: Tid, mon: Monitor)
    requires d.Inv() && t < |d.stage| && mon.Inv() && |mon.waiting| == 0
    requires |mon.phase| == |d.mon.phase| && mon.phase == d.mon.phase[t := mon.phase[t]]
             && mon.phase[t] in {Entering, Entered, Inside}
    requires d.mon.phase[t] in {Outside, Entering, Entered}
    ensures d.(mon := mon, stage := d.stage[t := Calling]).Inv()
  {
    var d' := d.(mon := mon, stage := d.stage[t := Calling]);
    assert d.stage[t] != Waiting;
    assert d'.Busy() == d.Busy() by {
      if d.Busy() {
        assert mon.phase[d.mon.holder.value] == Inside;
      }
    }
  }

  lemma NextKeeps(d: Device, step: Step, d': Device)
    requires d.Inv() && Next(d, step, d')
    ensures d'.Inv() && |d'.stage| == |d.stage|
  {
    match step
    case Call(t) => RequestKeeps(d.mon, t); MoveKeeps(d, t, d.mon.Request(t));
    case TryLock(t) => TryLockKeeps(d, t);
    case SetHolder(t) => SetHolderKeeps(d, t);
    case Issue(t) => IssueKeeps(d, t, d');
    case TryDone(t) => DoneKeeps(d, t, d');
    case Return(t) => ReturnKeeps(d, t, d');
    case Interrupt => VKeeps(d.done);
  }

  lemma TryLockKeeps(d: Device, t: Tid)
    requires d.Inv() && d.mon.CanTryEnter(t)
    ensures d.(mon := d.mon.TryEnter(t)).Inv()
  {
    TryEnterKeeps(d.mon, t);
    MoveKeeps(d, t, d.mon.TryEnter(t));
    assert d.stage[t := Calling] == d.stage;
  }

  lemma SetHolderKeeps(d: Device, t: Tid)
    requires d.Inv() && d.mon.Has(t) && d.mon.phase[t] == Entered
    ensures d.(mon := d.mon.TakeHolder(t)).Inv()
  {
    TakeHolderKeeps(d.mon, t);
    MoveKeeps(d, t, d.mon.TakeHolder(t));
    assert d.stage[t := Calling] == d.stage;
  }

  // Progress

  lemma AwakeMoves(d: Device, t: Tid) returns (step: Step, d': Device)
    requires d.Inv() && Awake(d.mon, t) && d.stage[t] != Idle && (d.stage[t] == Waiting ==> t !in d.done.queue)
    ensures Next(d, step, d') && step in {TryLock(t), SetHolder(t), Issue(t), TryDone(t), Return(t)}
  {
    match d.mon.phase[t]
    case Entering => step, d' := TryLock(t), d.(mon := d.mon.TryEnter(t));
    case Entered => step, d' := SetHolder(t), d.(mon := d.mon.TakeHolder(t));
    case Inside =>
      match d.stage[t]
      case Calling => step, d' := Issue(t), d.(scheduled := d.scheduled + 1, stage := d.stage[t := Waiting]);
      case Waiting =>
        step := TryDone(t);
        d' := d.(done := d.done.Try(t), stage := if d.done.value > 0 then d.stage[t := Leaving] else d.stage);
      case Leaving => step, d' := Return(t), d.(mon := d.mon.Release(t), stage := d.stage[t := Idle]);
  }

  /** No deadlock: while a call is under way, some thread can take a step or a completion interrupt is pending. */
  lemma NoDeadlock(d: Device, t: Tid) returns (step: Step, d': Device)
    requires d.Inv() && t < |d.stage| && d.stage[t] != Idle
    ensures Next(d, step, d') && !step.Call?
  {
    var u := t;
    if d.mon.phase[u] == Entering {
      u := LockMoves(d.mon, u);
    }
    if d.stage[u] == Waiting && u in d.done.queue {
      assert d.Busy();
      if d.scheduled > 0 {
        return Interrupt, d.(scheduled := d.scheduled - 1, done := d.done.V());
      }
      assert d.done.woken != {};
      u :| u in d.done.woken;
    }
    step, d' := AwakeMoves(d, u);
  }
}
