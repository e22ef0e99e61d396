/**
 * The dining philosophers of nachos64/code/threads/dinningph.cc, on a ring of any size from two up (the source has
 * five).
 */
module Philosophers {
  import opened Semaphores
  import opened Monitors

  datatype Plate = Thinking | Hungry | Eating

  /** Where philosopher `i`'s thread is in its pickup / putdown cycle. */
  datatype Stage = Away | PickingUp | Resuming | LeavingUp | AtTable | PuttingDown | HalfDown | LeavingDown

  // The ring

  function Left(i: nat, n: nat): (l: nat)
    requires i < n
    ensures l < n
  {
    if i == 0 then n - 1 else i - 1
  }

  function Right(i: nat, n: nat): (r: nat)
    requires i < n
    ensures r < n
  {
    if i == n - 1 then 0 else i + 1
  }

  /** The source's index arithmetic, `(i + 4) % 5` and `(i + 1) % 5` on its ring of five. */
  lemma RingFormula(i: nat, n: nat)
    requires i < n
    ensures Left(i, n) == (i + n - 1) % n && Right(i, n) == (i + 1) % n
  {
    if i > 0 {
      Wraps(i - 1, n);
    }
    if i == n - 1 {
      Wraps(0, n);
    }
  }

  lemma Wraps(i: nat, n: nat)
    requires i < n
    ensures (i + n) % n == i
  {
  }

  /** Nobody eats next to someone who eats. */
  predicate Apart(plate: seq<Plate>) {
    forall i | 0 <= i < |plate| && plate[i] == Eating ::
        plate[Left(i, |plate|)] != Eating && plate[Right(i, |plate|)] != Eating
  }

  predicate NextToEating(plate: seq<Plate>, i: nat)
    requires i < |plate|
  {
    plate[Left(i, |plate|)] == Eating || plate[Right(i, |plate|)] == Eating
  }

  /** Nobody is hungry between two who do not eat, but for the one whom a putdown in progress has still to test. */
  predicate Blocked(plate: seq<Plate>, stage: seq<Stage>)
    requires |stage| == |plate|
  {
    forall i | 0 <= i < |plate| && plate[i] == Hungry :: NextToEating(plate, i) || stage[Left(i, |plate|)] == HalfDown
  }

  predicate MayEat(plate: seq<Plate>, i: nat)
    requires i < |plate|
  {
    plate[i] == Hungry && !NextToEating(plate, i)
  }

  lemma EatKeeps(plate: seq<Plate>, stage: seq<Stage>, i: nat)
    requires 2 <= |plate| == |stage| && i < |plate| && !NextToEating(plate, i) && Apart(plate)
    ensures Apart(plate[i := Eating])
    ensures Blocked(plate, stage) ==> Blocked(plate[i := Eating], stage)
  {
  }

  /**
   * A thread inside the lock together with its philosopher's plate, the condition queue and the lock's phase:
   * hungry exactly while waiting unsignalled, and eating from then, or from pickup's own test, until putdown.
   */
  predicate Fits(i: nat, stage: Stage, plate: Plate, phase: Phase, queue: seq<Tid>) {
    && (stage in {Away, AtTable} <==> phase == Outside)
    && (stage in {LeavingUp, HalfDown, LeavingDown} ==> phase == Inside)
    && (phase.Parked? ==> stage == Resuming && phase.cond == i)
    && (stage in {LeavingUp, AtTable, PuttingDown} ==> plate == Eating)
    && (stage in {Away, PickingUp, HalfDown, LeavingDown} ==> plate == Thinking)
    && (stage == Resuming ==> plate == if queue == [i] then Hungry else Eating)
    && (queue == [] || (queue == [i] && stage == Resuming && phase.Parked?))
  }

  /** One lock, and one condition per philosopher on which only that philosopher waits. */
  datatype Table = Table(mon: Monitor, plate: seq<Plate>, stage: seq<Stage>) {
    predicate Shaped() {
      && 2 <= |plate| == |stage| == |mon.phase| == |mon.own| == |mon.waiting|
      && forall k | 0 <= k < |plate| && mon.waiting[k] != [] :: mon.waiting[k][0] < |mon.own|
    }

    /** DinningPh::test. */
    function Test(i: nat): Table
      requires Shaped() && i < |plate|
    {
      if MayEat(plate, i) then this.(plate := plate[i := Eating], mon := mon.Signal(i)) else this
    }

    /** The body of pickup: hungry, then eating or waiting. */
    function Pickup(i: nat): Table
      requires Shaped() && i < |plate|
    {
      var tested := this.(plate := plate[i := Hungry]).Test(i);
      if tested.plate[i] == Hungry then tested.(mon := tested.mon.Wait(i, i), stage := stage[i := Resuming])
      else tested.(stage := stage[i := LeavingUp])
    }

    /** putdown, up to the end of the Signal in its first test. */
    function PutdownFirst(i: nat): Table
      requires Shaped() && i < |plate|
    {
      this.(plate := plate[i := Thinking], stage := stage[i := HalfDown]).Test(Left(i, |plate|))
    }

    function PutdownSecond(i: nat): Table
      requires Shaped() && i < |plate|
    {
      this.(stage := stage[i := LeavingDown]).Test(Right(i, |plate|))
    }

    predicate Consistent()
      requires Shaped()
    {
      forall i | 0 <= i < |plate| :: Fits(i, stage[i], plate[i], mon.phase[i], mon.waiting[i])
    }

    ghost predicate Safe() {
      Shaped() && mon.Inv() && Consistent() && Apart(plate) && Blocked(plate, stage)
    }
  }

  datatype Step =
    | CallPickup(i: nat) | CallPutdown(i: nat) | TryLock(i: nat) | SetHolder(i: nat) | TryAwake(i: nat)
    | PickupBody(i: nat) | First(i: nat) | Second(i: nat) | Leave(i: nat)

  predicate Next(t: Table, step: Step, t': Table) {
    && t.Shaped() && step.i < |t.plate|
    && var i := step.i;
       match step
       case CallPickup(_) => t.stage[i] == Away && t' == t.(mon := t.mon.Request(i), stage := t.stage[i := PickingUp])
       case CallPutdown(_) =>
         t.stage[i] == AtTable && t' == t.(mon := t.mon.Request(i), stage := t.stage[i := PuttingDown])
       case TryLock(_) => t.mon.CanTryEnter(i) && t' == t.(mon := t.mon.TryEnter(i))
       case SetHolder(_) => t.mon.phase[i] == Entered && t' == t.(mon := t.mon.TakeHolder(i))
       case TryAwake(_) => t.mon.CanTryWake(i) && t' == t.(mon := t.mon.TryWake(i))
       case PickupBody(_) => t.mon.IsInside(i) && t.stage[i] == PickingUp && t' == t.Pickup(i)
       case First(_) => t.mon.IsInside(i) && t.stage[i] == PuttingDown && t' == t.PutdownFirst(i)
       case Second(_) => t.mon.IsInside(i) && t.stage[i] == HalfDown && t' == t.PutdownSecond(i)
       case Leave(_) =>
         && t.mon.IsInside(i) && t.stage[i] in {Resuming, LeavingUp, LeavingDown}
         && t' == t.(mon := t.mon.Release(i),
            stage := t.stage[i := if t.stage[i] == LeavingDown then Away else AtTable])
  }

  function Fresh(n: nat): Table {
    Table(Monitors.Fresh(n, n), seq(n, i => Thinking), seq(n, i => Away))
  }

  lemma FreshSafe(n: nat)
    requires 2 <= n
    ensures Fresh(n).Safe()
  {
    FreshInv(n, n);
  }

  /** Steps that change only where one thread stands. */
  lemma MoveKeeps(t: Table, i: nat, mon: Monitor, stage: Stage)
    requires t.Safe() && i < |t.plate| && mon.Inv() && mon.waiting == t.mon.waiting
    requires |mon.phase| == |t.mon.phase| && mon.phase == t.mon.phase[i := mon.phase[i]]
    requires Fits(i, stage, t.plate[i], mon.phase[i], t.mon.waiting[i])
    requires t.stage[i] == HalfDown ==> stage == HalfDown
    ensures t.(mon := mon, stage := t.stage[i := stage]).Safe()
  {
    assert forall k | 0 <= k < |t.plate| :: Fits(k, t.stage[k], t.plate[k], t.mon.phase[k], t.mon.waiting[k]);
  }

  /** A test that succeeds finds its philosopher asleep, and wakes it to eat. */
  lemma TestKeeps(t: Table, i: nat)
    requires t.Shaped() && t.mon.Inv() && t.Consistent() && i < |t.plate|
    ensures var u := t.Test(i); u.Shaped() && u.mon.Inv() && u.Consistent() && u.mon.phase == t.mon.phase
  {
    SignalKeeps(t.mon, i);
    var u := t.Test(i);
    if MayEat(t.plate, i) {
      assert Fits(i, t.stage[i], t.plate[i], t.mon.phase[i], t.mon.waiting[i]);
      assert t.mon.waiting[i] == [i] && u.mon.waiting[i] == [];
      forall k | 0 <= k < |u.plate| ensures Fits(k, u.stage[k], u.plate[k], u.mon.phase[k], u.mon.waiting[k]) {
        assert Fits(k, t.stage[k], t.plate[k], t.mon.phase[k], t.mon.waiting[k]);
      }
    }
  }

  lemma PickupKeeps(t: Table, i: nat)
    requires t.Safe() && i < |t.plate| && t.mon.IsInside(i) && t.stage[i] == PickingUp
    ensures t.Pickup(i).Safe()
  {
    assert Fits(i, t.stage[i], t.plate[i], t.mon.phase[i], t.mon.waiting[i]);
    PickupPlates(t, i);
    PickupConsistent(t, i);
    WaitKeeps(t.mon, i, i);
  }

  lemma PickupConsistent(t: Table, i: nat)
    requires t.Shaped() && t.Consistent() && i < |t.plate| && t.mon.IsInside(i) && t.stage[i] == PickingUp
    ensures var u := t.Pickup(i);
            u.Shaped() && u.Consistent() && u.mon == if u.plate[i] == Hungry then t.mon.Wait(i, i) else t.mon
  {
    var u := t.Pickup(i);
    assert Fits(i, t.stage[i], t.plate[i], t.mon.phase[i], t.mon.waiting[i]);
    forall k | 0 <= k < |u.plate| ensures Fits(k, u.stage[k], u.plate[k], u.mon.phase[k], u.mon.waiting[k]) {
      assert Fits(k, t.stage[k], t.plate[k], t.mon.phase[k], t.mon.waiting[k]);
    }
  }

  lemma PickupPlates(t: Table, i: nat)
    requires t.Shaped() && i < |t.plate| && t.plate[i] == Thinking && t.stage[i] == PickingUp
    requires Apart(t.plate) && Blocked(t.plate, t.stage)
    ensures var u := t.Pickup(i); Apart(u.plate) && Blocked(u.plate, u.stage)
  {
    var hungry := t.plate[i := Hungry];
    assert NextToEating(hungry, i) == NextToEating(t.plate, i);
    forall k | 0 <= k < |hungry| && k != i ensures NextToEating(hungry, k) == NextToEating(t.plate, k) {
    }
    if !NextToEating(hungry, i) {
      EatKeeps(hungry, t.stage, i);
    }
  }

  lemma FirstKeeps(t: Table, i: nat)
    requires t.Safe() && i < |t.plate| && t.mon.IsInside(i) && t.stage[i] == PuttingDown
    ensures t.PutdownFirst(i).Safe()
  {
    var down := t.(plate := t.plate[i := Thinking], stage := t.stage[i := HalfDown]);
    forall k | 0 <= k < |t.plate|
      ensures Fits(k, down.stage[k], down.plate[k], down.mon.phase[k], down.mon.waiting[k])
    {
      assert Fits(k, t.stage[k], t.plate[k], t.mon.phase[k], t.mon.waiting[k]);
    }
    TestKeeps(down, Left(i, |t.plate|));
    FirstPlates(t.plate, t.stage, i);
  }

  lemma FirstPlates(plate: seq<Plate>, stage: seq<Stage>, i: nat)
    requires 2 <= |plate| == |stage| && i < |plate| && plate[i] == Eating && stage[i] != HalfDown
    requires Apart(plate) && Blocked(plate, stage)
    ensures var l := Left(i, |plate|);
            var down := plate[i := Thinking];
            var after := if MayEat(down, l) then down[l := Eating] else down;
            Apart(after) && Blocked(after, stage[i := HalfDown])
  {
    var l := Left(i, |plate|);
    var down := plate[i := Thinking];
    assert Apart(down);
    forall k | 0 <= k < |plate| && down[k] == Hungry && k != l
      ensures NextToEating(down, k) || stage[i := HalfDown][Left(k, |plate|)] == HalfDown
    {
      assert NextToEating(plate, k) || stage[Left(k, |plate|)] == HalfDown;
    }
    if MayEat(down, l) {
      EatKeeps(down, stage, l);
    }
  }

  lemma SecondKeeps(t: Table, i: nat)
    requires t.Safe() && i < |t.plate| && t.mon.IsInside(i) && t.stage[i] == HalfDown
    ensures t.PutdownSecond(i).Safe()
  {
    var half := t.(stage := t.stage[i := LeavingDown]);
    forall k | 0 <= k < |t.plate|
      ensures Fits(k, half.stage[k], half.plate[k], half.mon.phase[k], half.mon.waiting[k])
    {
      assert Fits(k, t.stage[k], t.plate[k], t.mon.phase[k], t.mon.waiting[k]);
    }
    TestKeeps(half, Right(i, |t.plate|));
    SecondPlates(t.plate, t.stage, i);
  }

  lemma SecondPlates(plate: seq<Plate>, stage: seq<Stage>, i: nat)
    requires 2 <= |plate| == |stage| && i < |plate| && plate[i] == Thinking
    requires Apart(plate) && Blocked(plate, stage)
    ensures var r := Right(i, |plate|);
            var after := if MayEat(plate, r) then plate[r := Eating] else plate;
            Apart(after) && Blocked(after, stage[i := LeavingDown])
  {
    var r := Right(i, |plate|);
    forall k | 0 <= k < |plate| && plate[k] == Hungry && k != r
      ensures NextToEating(plate, k) || stage[i := LeavingDown][Left(k, |plate|)] == HalfDown
    {
      assert NextToEating(plate, k) || stage[Left(k, |plate|)] == HalfDown;
    }
    if MayEat(plate, r) {
      EatKeeps(plate, stage, r);
    }
  }

  lemma NextKeeps(t: Table, step: Step, t': Table)
    requires t.Safe() && Next(t, step, t')
    ensures t'.Safe()
  {
    var i := step.i;
    match step
    case CallPickup(_) => CallKeeps(t, i, PickingUp);
    case CallPutdown(_) => CallKeeps(t, i, PuttingDown);
    case TryLock(_) => TryEnterKeeps(t.mon, i); Onward(t, i, t.mon.TryEnter(i));
    case SetHolder(_) => TakeHolderKeeps(t.mon, i); Onward(t, i, t.mon.TakeHolder(i));
    case TryAwake(_) => AwakeKeeps(t, i);
    case PickupBody(_) => PickupKeeps(t, i);
    case First(_) => FirstKeeps(t, i);
    case Second(_) => SecondKeeps(t, i);
    case Leave(_) => LeaveKeeps(t, i);
  }

  lemma CallKeeps(t: Table, i: nat, stage: Stage)
    requires t.Safe() && i < |t.plate|
    requires (t.stage[i] == Away && stage == PickingUp) || (t.stage[i] == AtTable && stage == PuttingDown)
    ensures t.(mon := t.mon.Request(i), stage := t.stage[i := stage]).Safe()
  {
    assert Fits(i, t.stage[i], t.plate[i], t.mon.phase[i], t.mon.waiting[i]);
    RequestKeeps(t.mon, i);
    MoveKeeps(t, i, t.mon.Request(i), stage);
  }

  lemma AwakeKeeps(t: Table, i: nat)
    requires t.Safe() && i < |t.plate| && t.mon.CanTryWake(i)
    ensures t.(mon := t.mon.TryWake(i)).Safe()
  {
    TryWakeKeeps(t.mon, i);
    assert Fits(i, t.stage[i], t.plate[i], t.mon.phase[i], t.mon.waiting[i]);
    assert t.mon.Private(i);
    Onward(t, i, t.mon.TryWake(i));
  }

  lemma Onward(t: Table, i: nat, mon: Monitor)
    requires t.Safe() && i < |t.plate| && mon.Inv() && mon.waiting == t.mon.waiting
    requires |mon.phase| == |t.mon.phase| && mon.phase == t.mon.phase[i := mon.phase[i]]
    requires t.mon.phase[i] in {Entering, Entered}
             || (t.mon.phase[i].Parked? && (t.mon.waiting[i] == [] || mon.phase[i] == t.mon.phase[i]))
    requires mon.phase[i] in {t.mon.phase[i], Entering, Entered, Inside}
    ensures t.(mon := mon).Safe()
  {
    assert Fits(i, t.stage[i], t.plate[i], t.mon.phase[i], t.mon.waiting[i]);
    MoveKeeps(t, i, mon, t.stage[i]);
    assert t.stage[i := t.stage[i]] == t.stage;
  }

  lemma LeaveKeeps(t: Table, i: nat)
    requires t.Safe() && i < |t.plate| && t.mon.IsInside(i) && t.stage[i] in {Resuming, LeavingUp, LeavingDown}
    ensures t.plate[i] == if t.stage[i] == LeavingDown then Thinking else Eating
    ensures t.(mon := t.mon.Release(i),
            stage := t.stage[i := if t.stage[i] == LeavingDown then Away else AtTable]).Safe()
  {
    ReleaseKeeps(t.mon, i);
    assert Fits(i, t.stage[i], t.plate[i], t.mon.phase[i], t.mon.waiting[i]);
    MoveKeeps(t, i, t.mon.Release(i), if t.stage[i] == LeavingDown then Away else AtTable);
  }

  predicate Run(states: seq<Table>, steps: seq<Step>, n: nat) {
    && |states| == |steps| + 1 && states[0] == Fresh(n)
    && forall j | 0 <= j < |steps| :: Next(states[j], steps[j], states[j + 1])
  }

  lemma {:induction false} RunsAreSafe(states: seq<Table>, steps: seq<Step>, n: nat, j: nat)
    requires 2 <= n && Run(states, steps, n) && j < |states|
    ensures states[j].Safe()
  {
    if j == 0 {
      FreshSafe(n);
    } else {
      RunsAreSafe(states, steps, n, j - 1);
      NextKeeps(states[j - 1], steps[j - 1], states[j]);
    }
  }

  lemma SameRing(t: Table, step: Step, t': Table)
    requires Next(t, step, t')
    ensures |t'.plate| == |t.plate|
  {
  }

  lemma {:induction false} RingStays(states: seq<Table>, steps: seq<Step>, n: nat, j: nat)
    requires Run(states, steps, n) && j < |states|
    ensures |states[j].plate| == n
  {
    if j > 0 {
      RingStays(states, steps, n, j - 1);
      SameRing(states[j - 1], steps[j - 1], states[j]);
    }
  }

  /** Neighbours never eat at the same time. */
  lemma NeighboursNeverEat(states: seq<Table>, steps: seq<Step>, n: nat, j: nat, i: nat)
    requires 2 <= n && Run(states, steps, n) && j < |states| && i < n
    ensures |states[j].plate| == n && !(states[j].plate[i] == Eating && states[j].plate[(i + 1) % n] == Eating)
  {
    RunsAreSafe(states, steps, n, j);
    RingStays(states, steps, n, j);
    RingFormula(i, n);
  }

  /** pickup returns only to a caller who is Eating, although it tests its Wait with `if` and not `while`. */
  lemma PickupReturnsEating(states: seq<Table>, steps: seq<Step>, n: nat, j: nat)
    requires 2 <= n && Run(states, steps, n) && j < |steps| && steps[j].Leave? && steps[j].i < |states[j].stage|
             && states[j].stage[steps[j].i] != LeavingDown
    ensures steps[j].i < n == |states[j + 1].plate| && states[j + 1].plate[steps[j].i] == Eating
            && states[j + 1].stage[steps[j].i] == AtTable
  {
    RunsAreSafe(states, steps, n, j);
    RingStays(states, steps, n, j);
    assert Next(states[j], steps[j], states[j + 1]);
    LeaveKeeps(states[j], steps[j].i);
  }

  /** Whenever the monitor is free, every Hungry philosopher has a neighbour who eats. */
  lemma HungryIsBlocked(states: seq<Table>, steps: seq<Step>, n: nat, j: nat, i: nat)
    requires 2 <= n && Run(states, steps, n) && j < |states| && i < n && |states[j].plate| == n
    requires states[j].mon.owner.None? && states[j].plate[i] == Hungry
    ensures states[j].plate[(i + n - 1) % n] == Eating || states[j].plate[(i + 1) % n] == Eating
  {
    RunsAreSafe(states, steps, n, j);
    RingStays(states, steps, n, j);
    var t := states[j];
    var l := Left(i, n);
    assert Fits(l, t.stage[l], t.plate[l], t.mon.phase[l], t.mon.waiting[l]);
    RingFormula(i, n);
  }

  /** putdown returns to a caller who is Thinking. */
  lemma PutdownReturnsThinking(states: seq<Table>, steps: seq<Step>, n: nat, j: nat)
    requires 2 <= n && Run(states, steps, n) && j < |steps| && steps[j].Leave? && steps[j].i < |states[j].stage|
    requires states[j].stage[steps[j].i] == LeavingDown
    ensures steps[j].i < n == |states[j + 1].plate| && states[j + 1].plate[steps[j].i] == Thinking
    ensures states[j + 1].stage[steps[j].i] == Away
  {
    RunsAreSafe(states, steps, n, j);
    RingStays(states, steps, n, j);
    assert Next(states[j], steps[j], states[j + 1]);
    LeaveKeeps(states[j], steps[j].i);
  }

  /** A philosopher inside Wait is Hungry exactly until signalled, and once Eating can always go on. */
  lemma SleeperIsHungry(states: seq<Table>, steps: seq<Step>, n: nat, j: nat, i: nat)
    requires 2 <= n && Run(states, steps, n) && j < |states| && i < n
    requires i < |states[j].mon.phase| && states[j].mon.phase[i].Parked?
    ensures i < |states[j].plate| && i < |states[j].mon.waiting|
    ensures states[j].plate[i] == if i in states[j].mon.waiting[i] then Hungry else Eating
    ensures states[j].plate[i] == Eating ==> states[j].mon.CanTryWake(i) && states[j].mon.own[i].value > 0
  {
    RunsAreSafe(states, steps, n, j);
    RingStays(states, steps, n, j);
    var t := states[j];
    assert Fits(i, t.stage[i], t.plate[i], t.mon.phase[i], t.mon.waiting[i]);
    assert t.mon.Private(i);
  }

  /** A philosopher who is awake can always take the next step. */
  lemma AwakeMoves(t: Table, i: nat) returns (step: Step, t': Table)
    requires t.Safe() && i < |t.plate| && Awake(t.mon, i)
    ensures Next(t, step, t') && step.i == i
  {
    assert Fits(i, t.stage[i], t.plate[i], t.mon.phase[i], t.mon.waiting[i]);
    match t.mon.phase[i]
    case Outside =>
      if t.stage[i] == Away {
        step, t' := CallPickup(i), t.(mon := t.mon.Request(i), stage := t.stage[i := PickingUp]);
      } else {
        step, t' := CallPutdown(i), t.(mon := t.mon.Request(i), stage := t.stage[i := PuttingDown]);
      }
    case Entering => step, t' := TryLock(i), t.(mon := t.mon.TryEnter(i));
    case Entered => step, t' := SetHolder(i), t.(mon := t.mon.TakeHolder(i));
    case Parked(_) => step, t' := TryAwake(i), t.(mon := t.mon.TryWake(i));
    case Inside => step, t' := InsideMoves(t, i);
  }

  lemma InsideMoves(t: Table, i: nat) returns (step: Step, t': Table)
    requires t.Safe() && i < |t.plate| && t.mon.phase[i] == Inside
    ensures Next(t, step, t') && step.i == i
  {
    assert Fits(i, t.stage[i], t.plate[i], t.mon.phase[i], t.mon.waiting[i]);
    if t.stage[i] == PickingUp {
      step, t' := PickupBody(i), t.Pickup(i);
    } else if t.stage[i] == PuttingDown {
      step, t' := First(i), t.PutdownFirst(i);
    } else if t.stage[i] == HalfDown {
      step, t' := Second(i), t.PutdownSecond(i);
    } else {
      step := Leave(i);
      t' := t.(mon := t.mon.Release(i), stage := t.stage[i := if t.stage[i] == LeavingDown then Away else AtTable]);
    }
  }
}
