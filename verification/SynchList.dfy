/**
 * The synchronised list of nachos64/code/threads/synchlist.h: a list under a lock, with a condition to wait for items.
 */
module SynchLists {
  import opened Options
  import opened Semaphores
  import opened Monitors

  /** What a thread has called: `Leaving` has done its work and is about to release the lock. */
  datatype Job<T> = Idle | Appending(item: T) | Removing | Leaving

  /**
   * `appended` and `removed` log the items in the order in which the lock let their threads through.
   * `again` are the threads that Signal has picked and that have not looked at the list since.
   */
  datatype State<T> = State(mon: Monitor, list: seq<T>, job: seq<Job<T>>, appended: seq<T>, removed: seq<T>,
      again: set<Tid>)

  datatype Step<T> =
    | CallAppend(t: Tid, item: T) | CallRemove(t: Tid)
    | TryLock(t: Tid) | SetHolder(t: Tid) | TryAwake(t: Tid)
    | Put(t: Tid) | Take(t: Tid) | Leave(t: Tid)

  const LIST_EMPTY := 0

  function Fresh<T>(threads: nat): State<T> {
    State(Monitors.Fresh(threads, 1), [], seq(threads, t => Idle), [], [], {})
  }

  predicate Shaped<T>(s: State<T>) {
    |s.mon.waiting| == 1 && |s.mon.own| == |s.mon.phase| == |s.job|
  }

  /** The body of Append: the item goes to the end and one waiter, if any, is signalled. */
  ghost predicate PutStep<T>(s: State<T>, t: Tid, s': State<T>)
    requires Shaped(s)
  {
    && s.mon.IsInside(t) && s.job[t].Appending?
    && (s.mon.waiting[LIST_EMPTY] != [] ==> s.mon.waiting[LIST_EMPTY][0] < |s.mon.own|)
    && s' == s.(mon := s.mon.Signal(LIST_EMPTY),
                list := s.list + [s.job[t].item],
                appended := s.appended + [s.job[t].item],
                again := if s.mon.waiting[LIST_EMPTY] == [] then s.again else s.again + {s.mon.waiting[LIST_EMPTY][0]},
                job := s.job[t := Leaving])
  }

  /** One turn of the loop in Remove: wait if the list is empty, else take the first item. */
  ghost predicate TakeStep<T>(s: State<T>, t: Tid, s': State<T>)
    requires Shaped(s)
  {
    && s.mon.IsInside(t) && s.job[t] == Removing
    && s' == if s.list == [] then s.(mon := s.mon.Wait(t, LIST_EMPTY), again := s.again - {t})
             else s.(list := s.list[1..], removed := s.removed + [s.list[0]], again := s.again - {t},
               job := s.job[t := Leaving])
  }

  ghost predicate Next<T>(s: State<T>, step: Step<T>, s': State<T>) {
    && Shaped(s)
    && match step
       case CallAppend(t, x) =>
         s.mon.Has(t) && s.mon.phase[t] == Outside && s' == s.(mon := s.mon.Request(t), job := s.job[t := Appending(x)])
       case CallRemove(t) =>
         s.mon.Has(t) && s.mon.phase[t] == Outside && s' == s.(mon := s.mon.Request(t), job := s.job[t := Removing])
       case TryLock(t) => s.mon.CanTryEnter(t) && s' == s.(mon := s.mon.TryEnter(t))
       case SetHolder(t) => s.mon.Has(t) && s.mon.phase[t] == Entered && s' == s.(mon := s.mon.TakeHolder(t))
       case TryAwake(t) => s.mon.CanTryWake(t) && s' == s.(mon := s.mon.TryWake(t))
       case Put(t) => PutStep(s, t, s')
       case Take(t) => TakeStep(s, t, s')
       case Leave(t) =>
         s.mon.IsInside(t) && s.job[t] == Leaving && s' == s.(mon := s.mon.Release(t), job := s.job[t := Idle])
  }

  // The invariant

  ghost predicate JobsInv<T>(s: State<T>)
    requires Shaped(s)
  {
    forall t | 0 <= t < |s.job| ::
      && (s.job[t] == Idle <==> s.mon.phase[t] == Outside)
      && (s.job[t] == Leaving ==> s.mon.phase[t] == Inside)
      && (s.mon.phase[t].Parked? ==> s.job[t] == Removing)
  }

  /** Signalled threads are on their way back to look at the list. */
  ghost predicate AgainInv<T>(s: State<T>)
    requires Shaped(s)
  {
    && (forall t | t in s.again :: s.mon.Has(t) && s.job[t] == Removing && t !in s.mon.waiting[LIST_EMPTY])
    && (forall t | 0 <= t < |s.job| && s.mon.phase[t].Parked? :: t in s.mon.waiting[LIST_EMPTY] || t in s.again)
    && (s.mon.waiting[LIST_EMPTY] != [] ==> |s.list| <= |s.again|)
  }

  ghost predicate Safe<T>(s: State<T>) {
    Shaped(s) && s.mon.Inv() && JobsInv(s) && AgainInv(s) && s.appended == s.removed + s.list
  }

  lemma FreshSafe<T>(threads: nat)
    ensures Safe(Fresh<T>(threads))
  {
    FreshInv(threads, 1);
  }

  /** The condition's queue, and where the threads in it are. */
  ghost predicate QueueInv(q: seq<Tid>, phase: seq<Phase>) {
    && (forall i | 0 <= i < |q| :: q[i] < |phase| && phase[q[i]] == Parked(LIST_EMPTY))
    && (forall i, j | 0 <= i < j < |q| :: q[i] != q[j])
  }

  lemma SignalledOne<T>(s: State<T>, t: Tid, s': State<T>)
    requires Shaped(s) && JobsInv(s) && AgainInv(s) && PutStep(s, t, s')
    requires QueueInv(s.mon.waiting[LIST_EMPTY], s.mon.phase)
    ensures Shaped(s') && JobsInv(s') && AgainInv(s')
  {
    var q := s.mon.waiting[LIST_EMPTY];
    if q != [] {
      assert q == [q[0]] + q[1..];
      assert q[0] != t && q[0] !in s.again;
      assert |s'.again| == |s.again| + 1;
      assert forall i | 0 <= i < |q[1..]| :: q[1..][i] == q[i + 1];
    }
  }

  lemma PutKeeps<T>(s: State<T>, t: Tid, s': State<T>)
    requires Safe(s) && PutStep(s, t, s')
    ensures Safe(s')
  {
    SignalKeeps(s.mon, LIST_EMPTY);
    SignalledOne(s, t, s');
    assert s'.appended == s'.removed + s'.list;
  }

  lemma TakenOne<T>(s: State<T>, t: Tid, s': State<T>)
    requires Shaped(s) && JobsInv(s) && AgainInv(s) && TakeStep(s, t, s') && s.list != []
    ensures Shaped(s') && JobsInv(s') && AgainInv(s')
  {
    Counts(s.again, t);
  }

  lemma TakeItem<T>(s: State<T>, t: Tid, s': State<T>)
    requires Safe(s) && TakeStep(s, t, s') && s.list != []
    ensures Safe(s')
  {
    TakenOne(s, t, s');
    assert s.list == [s.list[0]] + s.list[1..];
    assert s'.mon == s.mon && s'.appended == s'.removed + s'.list;
  }

  lemma TakeNothing<T>(s: State<T>, t: Tid, s': State<T>)
    requires Safe(s) && TakeStep(s, t, s') && s.list == []
    ensures Safe(s')
  {
    WaitKeeps(s.mon, t, LIST_EMPTY);
    SleepKeeps(s, t, s');
    assert s'.mon == s.mon.Wait(t, LIST_EMPTY) && Shaped(s');
  }

  lemma TakeKeeps<T>(s: State<T>, t: Tid, s': State<T>)
    requires Safe(s) && TakeStep(s, t, s')
    ensures Safe(s')
  {
    if s.list == [] {
      TakeNothing(s, t, s');
    } else {
      TakeItem(s, t, s');
    }
  }

  lemma Counts(again: set<Tid>, t: Tid)
    ensures |again| - 1 <= |again - {t}|
  {
    if t in again {
      assert |again - {t}| == |again| - 1;
    } else {
      assert again - {t} == again;
    }
  }

  lemma SleepKeeps<T>(s: State<T>, t: Tid, s': State<T>)
    requires Shaped(s) && JobsInv(s) && AgainInv(s) && s.list == [] && s.mon.IsInside(t) && s.job[t] == Removing
    requires s' == s.(mon := s.mon.Wait(t, LIST_EMPTY), again := s.again - {t})
    ensures JobsInv(s') && AgainInv(s')
  {
    assert s'.mon.waiting[LIST_EMPTY] == s.mon.waiting[LIST_EMPTY] + [t];
  }

  lemma CallKeeps<T>(s: State<T>, t: Tid, job: Job<T>)
    requires Safe(s) && s.mon.Has(t) && s.mon.phase[t] == Outside && (job.Appending? || job.Removing?)
    ensures Safe(s.(mon := s.mon.Request(t), job := s.job[t := job]))
  {
    RequestKeeps(s.mon, t);
  }

  /** A thread that moves on towards the lock's inside, nobody's place in the queue having changed. */
  lemma MoveKeeps<T>(s: State<T>, t: Tid, mon: Monitor)
    requires Safe(s) && s.mon.Has(t) && mon.Inv()
    requires mon.waiting == s.mon.waiting && |mon.phase| == |s.mon.phase|
    requires mon.phase == s.mon.phase[t := mon.phase[t]] && mon.phase[t] in {s.mon.phase[t], Entering, Entered, Inside}
    requires s.mon.phase[t] in {Entering, Entered} || (s.mon.phase[t].Parked? && t in s.again)
    ensures Safe(s.(mon := mon))
  {
  }

  lemma AwakeKeeps<T>(s: State<T>, t: Tid)
    requires Safe(s) && s.mon.CanTryWake(t)
    ensures Safe(s.(mon := s.mon.TryWake(t)))
  {
    TryWakeKeeps(s.mon, t);
    assert s.mon.Private(t);
    if s.mon.own[t].value > 0 {
      MoveKeeps(s, t, s.mon.TryWake(t));
    }
  }

  lemma LeaveKeeps<T>(s: State<T>, t: Tid)
    requires Safe(s) && s.mon.IsInside(t) && s.job[t] == Leaving
    ensures Safe(s.(mon := s.mon.Release(t), job := s.job[t := Idle]))
  {
    ReleaseKeeps(s.mon, t);
    LeaveJobs(s, t);
  }

  lemma LeaveJobs<T>(s: State<T>, t: Tid)
    requires Shaped(s) && JobsInv(s) && AgainInv(s) && s.mon.IsInside(t) && s.job[t] == Leaving
    ensures var s' := s.(mon := s.mon.Release(t), job := s.job[t := Idle]); Shaped(s') && JobsInv(s') && AgainInv(s')
  {
  }

  lemma NextKeeps<T>(s: State<T>, step: Step<T>, s': State<T>)
    requires Safe(s) && Next(s, step, s')
    ensures Safe(s')
  {
    match step
    case CallAppend(t, x) => CallKeeps(s, t, Appending(x));
    case CallRemove(t) => CallKeeps(s, t, Removing);
    case TryLock(t) => TryEnterKeeps(s.mon, t); MoveKeeps(s, t, s.mon.TryEnter(t));
    case SetHolder(t) => TakeHolderKeeps(s.mon, t); MoveKeeps(s, t, s.mon.TakeHolder(t));
    case TryAwake(t) => AwakeKeeps(s, t);
    case Put(t) => PutKeeps(s, t, s');
    case Take(t) => TakeKeeps(s, t, s');
    case Leave(t) => LeaveKeeps(s, t);
  }

  ghost predicate Run<T>(states: seq<State<T>>, steps: seq<Step<T>>, threads: nat) {
    && |states| == |steps| + 1 && states[0] == Fresh(threads)
    && forall i | 0 <= i < |steps| :: Next(states[i], steps[i], states[i + 1])
  }

  lemma {:induction false} RunsAreSafe<T>(states: seq<State<T>>, steps: seq<Step<T>>, threads: nat, i: nat)
    requires Run(states, steps, threads) && i < |states|
    ensures Safe(states[i])
  {
    if i == 0 {
      FreshSafe<T>(threads);
    } else {
      RunsAreSafe(states, steps, threads, i - 1);
      NextKeeps(states[i - 1], steps[i - 1], states[i]);
    }
  }

  // The logs and the calls of the run

  /** The item of the latest Append that thread `t` called in the first `n` steps. */
  function Called<T>(steps: seq<Step<T>>, t: Tid, n: nat): Option<T>
    requires n <= |steps|
  {
    if n == 0 then None
    else if steps[n - 1].CallAppend? && steps[n - 1].t == t then Some(steps[n - 1].item)
    else Called(steps, t, n - 1)
  }

  /** The items of the Append calls whose bodies the lock let through in the first `n` steps, in that order. */
  function Puts<T>(steps: seq<Step<T>>, n: nat): seq<T>
    requires n <= |steps|
  {
    if n == 0 then []
    else
      var before := Puts(steps, n - 1);
      if steps[n - 1].Put? && Called(steps, steps[n - 1].t, n - 1).Some?
      then before + [Called(steps, steps[n - 1].t, n - 1).value]
      else before
  }

  /** How many turns of Remove's loop, in the first `n` steps, found the list non-empty. */
  ghost function Takes<T>(states: seq<State<T>>, steps: seq<Step<T>>, n: nat): nat
    requires n <= |steps| < |states|
  {
    if n == 0 then 0
    else Takes(states, steps, n - 1) + if steps[n - 1].Take? && states[n - 1].list != [] then 1 else 0
  }

  lemma JobStep<T>(s: State<T>, step: Step<T>, s': State<T>, t: Tid)
    requires Next(s, step, s') && t < |s.job|
    ensures |s'.job| == |s.job|
    ensures if step.CallAppend? && step.t == t then s'.job[t] == Appending(step.item)
            else s'.job[t].Appending? ==> s'.job[t] == s.job[t]
  {
  }

  lemma LogStep<T>(s: State<T>, step: Step<T>, s': State<T>)
    requires Next(s, step, s')
    ensures step.Put? ==>
              step.t < |s.job| && s.job[step.t].Appending? && s'.appended == s.appended + [s.job[step.t].item]
    ensures !step.Put? ==> s'.appended == s.appended
    ensures |s'.removed| == |s.removed| + if step.Take? && s.list != [] then 1 else 0
  {
  }

  lemma {:induction false} JobIsCalled<T>(states: seq<State<T>>, steps: seq<Step<T>>, threads: nat, n: nat, t: Tid)
    requires Run(states, steps, threads) && n < |states| && t < threads
    ensures t < |states[n].job|
    ensures states[n].job[t].Appending? ==> Called(steps, t, n) == Some(states[n].job[t].item)
  {
    if n > 0 {
      JobIsCalled(states, steps, threads, n - 1, t);
      JobStep(states[n - 1], steps[n - 1], states[n], t);
    }
  }

  lemma {:induction false} SameThreads<T>(states: seq<State<T>>, steps: seq<Step<T>>, threads: nat, n: nat)
    requires Run(states, steps, threads) && n < |states|
    ensures |states[n].job| == threads
  {
    if n > 0 {
      SameThreads(states, steps, threads, n - 1);
      assert Next(states[n - 1], steps[n - 1], states[n]);
      if threads > 0 {
        JobStep(states[n - 1], steps[n - 1], states[n], 0);
      }
    }
  }

  lemma PutBrings<T>(states: seq<State<T>>, steps: seq<Step<T>>, threads: nat, n: nat)
    requires Run(states, steps, threads) && n < |steps|
    ensures states[n + 1].appended
            == if steps[n].Put? && Called(steps, steps[n].t, n).Some?
               then states[n].appended + [Called(steps, steps[n].t, n).value] else states[n].appended
  {
    assert Next(states[n], steps[n], states[n + 1]);
    LogStep(states[n], steps[n], states[n + 1]);
    SameThreads(states, steps, threads, n);
    if steps[n].Put? {
      JobIsCalled(states, steps, threads, n, steps[n].t);
    }
  }

  /** What was appended is what the Append calls brought, in lock order. */
  lemma {:induction false} AppendedIsPuts<T>(states: seq<State<T>>, steps: seq<Step<T>>, threads: nat, n: nat)
    requires Run(states, steps, threads) && n < |states|
    ensures states[n].appended == Puts(steps, n)
  {
    if n > 0 {
      AppendedIsPuts(states, steps, threads, n - 1);
      PutBrings(states, steps, threads, n - 1);
    }
  }

  /** A Remove that finds an item takes one, and no other step does. */
  lemma {:induction false} RemovedIsTakes<T>(states: seq<State<T>>, steps: seq<Step<T>>, threads: nat, n: nat)
    requires Run(states, steps, threads) && n < |states|
    ensures |states[n].removed| == Takes(states, steps, n)
  {
    if n > 0 {
      RemovedIsTakes(states, steps, threads, n - 1);
      assert Next(states[n - 1], steps[n - 1], states[n]);
      LogStep(states[n - 1], steps[n - 1], states[n]);
    }
  }

  /**
   * First in, first out, whatever the interleaving: the items of the Append calls, in lock order, are those removed so
   * far, one for each Remove that found an item, followed by those in the list.
   */
  lemma RemovedIsPrefix<T>(states: seq<State<T>>, steps: seq<Step<T>>, threads: nat, i: nat)
    requires Run(states, steps, threads) && i < |states|
    ensures Puts(steps, i) == states[i].removed + states[i].list && |states[i].removed| == Takes(states, steps, i)
  {
    RunsAreSafe(states, steps, threads, i);
    AppendedIsPuts(states, steps, threads, i);
    RemovedIsTakes(states, steps, threads, i);
  }

  /**
   * No item strands a sleeper: while some thread waits unsignalled, every item has a signalled thread coming for it.
   */
  lemma NoItemStranded<T>(states: seq<State<T>>, steps: seq<Step<T>>, threads: nat, i: nat)
    requires Run(states, steps, threads) && i < |states|
    ensures Shaped(states[i])
    ensures states[i].mon.waiting[LIST_EMPTY] != [] ==> |states[i].list| <= |states[i].again|
    ensures forall t | t in states[i].again ::
              t < |states[i].job| && states[i].job[t] == Removing && t !in states[i].mon.waiting[LIST_EMPTY]
    ensures forall t | t in states[i].again && states[i].mon.phase[t].Parked? ::
              states[i].mon.CanTryWake(t) && states[i].mon.own[t].value > 0
  {
    RunsAreSafe(states, steps, threads, i);
    forall t | t in states[i].again && states[i].mon.phase[t].Parked?
      ensures states[i].mon.CanTryWake(t) && states[i].mon.own[t].value > 0
    {
      assert states[i].mon.Private(t);
    }
  }

  // Progress

  /** A thread that is awake in a call can always take its next step. */
  lemma AwakeMoves<T>(s: State<T>, t: Tid) returns (step: Step<T>, s': State<T>)
    requires Safe(s) && Awake(s.mon, t) && s.job[t] != Idle
    ensures Next(s, step, s') && step.t == t
  {
    match s.mon.phase[t]
    case Entering => step, s' := TryLock(t), s.(mon := s.mon.TryEnter(t));
    case Entered => step, s' := SetHolder(t), s.(mon := s.mon.TakeHolder(t));
    case Parked(_) => step, s' := TryAwake(t), s.(mon := s.mon.TryWake(t));
    case Inside => step, s' := InsideMoves(s, t);
  }

  lemma InsideMoves<T>(s: State<T>, t: Tid) returns (step: Step<T>, s': State<T>)
    requires Safe(s) && s.mon.IsInside(t)
    ensures Next(s, step, s') && step.t == t
  {
    match s.job[t]
    case Appending(x) =>
      var q := s.mon.waiting[LIST_EMPTY];
      step := Put(t);
      s' := s.(mon := s.mon.Signal(LIST_EMPTY), list := s.list + [x], appended := s.appended + [x],
               again := if q == [] then s.again else s.again + {q[0]}, job := s.job[t := Leaving]);
    case Removing =>
      step := Take(t);
      s' := if s.list == [] then s.(mon := s.mon.Wait(t, LIST_EMPTY), again := s.again - {t})
            else s.(list := s.list[1..], removed := s.removed + [s.list[0]], again := s.again - {t},
                    job := s.job[t := Leaving]);
    case Leaving => step, s' := Leave(t), s.(mon := s.mon.Release(t), job := s.job[t := Idle]);
  }

  /**
   * No deadlock: while a call is under way some thread can take a step, unless the call is a Remove that waits, with no
   * item in the list, for one to come.
   */
  lemma NoDeadlock<T>(s: State<T>, t: Tid) returns (step: Step<T>, s': State<T>)
    requires Safe(s) && t < |s.job| && s.job[t] != Idle
    requires s.list == [] ==> t !in s.mon.waiting[LIST_EMPTY]
    ensures Next(s, step, s') && !step.CallAppend? && !step.CallRemove?
  {
    var u := t;
    if t in s.mon.waiting[LIST_EMPTY] {
      assert s.mon.waiting[LIST_EMPTY] != [] && s.again != {};
      u :| u in s.again;
    }
    assert s.mon.phase[u].Parked? ==> s.mon.Private(u);
    if s.mon.phase[u] == Entering {
      u := LockMoves(s.mon, u);
    }
    step, s' := AwakeMoves(s, u);
  }
}
