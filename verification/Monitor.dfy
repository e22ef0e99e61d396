/**
 * Locks and condition variables of nachos64/code/threads/synch.cc, as the steps between which a context switch
 * can happen. Every operation below runs from one point where the interrupt level goes back on to the next.
 */
module Monitors {
  import opened Options
  import opened Semaphores

  /**
   * Where a thread is: `Entering` is inside mutex->P(); `Entered` has its unit but has not set lockHolder;
   * `Parked(c)` is inside waiter->P() of a Wait on condition `c`.
   */
  datatype Phase = Outside | Entering | Entered | Inside | Parked(cond: nat)

  /**
   * A lock with its condition variables. A waiting thread's private semaphore is found under its number.
   * `owner` is the thread that took the mutex's unit last and has not given it back.
   */
  datatype Monitor = Monitor(mutex: Sem, holder: Option<Tid>, owner: Option<Tid>, waiting: seq<seq<Tid>>,
      own: seq<Sem>, phase: seq<Phase>) {
    predicate Has(t: Tid) {
      t < |phase|
    }

    // Lock::Acquire, in three steps

    function Request(t: Tid): Monitor
      requires Has(t)
    {
      this.(phase := phase[t := Entering])
    }

    function TryEnter(t: Tid): Monitor
      requires Has(t)
    {
      if mutex.value > 0 then this.(mutex := mutex.Try(t), owner := Some(t), phase := phase[t := Entered])
      else this.(mutex := mutex.Try(t))
    }

    function TakeHolder(t: Tid): Monitor
      requires Has(t)
    {
      this.(holder := Some(t), phase := phase[t := Inside])
    }

    /** Lock::Release, up to the end of mutex->V(). */
    function Release(t: Tid): Monitor
      requires Has(t)
    {
      this.(mutex := mutex.V(), holder := None, owner := None, phase := phase[t := Outside])
    }

    /** Condition::Wait, up to the end of its Release. */
    function Wait(t: Tid, c: nat): Monitor
      requires Has(t) && c < |waiting| && |own| == |phase|
    {
      Release(t).(waiting := waiting[c := waiting[c] + [t]], own := own[t := Sem(0, [], {})],
        phase := phase[t := Parked(c)])
    }

    /** One pass of waiter->P(); afterwards the thread acquires the lock again. */
    function TryWake(t: Tid): Monitor
      requires Has(t) && |own| == |phase|
    {
      this.(own := own[t := own[t].Try(t)], phase := if own[t].value > 0 then phase[t := Entering] else phase)
    }

    /** Condition::Signal; Broadcast is Signal until nobody waits. */
    function Signal(c: nat): Monitor
      requires c < |waiting| && (waiting[c] != [] ==> waiting[c][0] < |own|)
    {
      if waiting[c] == [] then this
      else this.(waiting := waiting[c := waiting[c][1..]], own := own[waiting[c][0] := own[waiting[c][0]].V()])
    }

    // Guards: where a thread must be to take a step

    predicate CanTryEnter(t: Tid) {
      Has(t) && phase[t] == Entering && t !in mutex.queue
    }

    predicate CanTryWake(t: Tid) {
      Has(t) && |own| == |phase| && phase[t].Parked? && t !in own[t].queue
    }

    predicate IsInside(t: Tid) {
      Has(t) && phase[t] == Inside
    }

    // The invariant

    ghost predicate LockInv() {
      && mutex.Inv()
      && (forall t | t in mutex.queue || t in mutex.woken :: Has(t) && phase[t] == Entering)
      && mutex.value == (if owner.Some? then 0 else 1)
      && (forall t | 0 <= t < |phase| :: phase[t] == Entered || phase[t] == Inside <==> owner == Some(t))
      && (forall t | 0 <= t < |phase| :: phase[t] == Inside <==> holder == Some(t))
      && (owner.Some? ==> Has(owner.value)) && (holder.Some? ==> Has(holder.value))
    }

    /**
     * A thread is queued on a condition exactly while it waits there unsignalled; once signalled its semaphore has a
     * unit.
     */
    ghost predicate CondInv() {
      && |own| == |phase|
      && (forall c, i | 0 <= c < |waiting| && 0 <= i < |waiting[c]| ::
           Has(waiting[c][i]) && phase[waiting[c][i]] == Parked(c) && own[waiting[c][i]].value == 0)
      && (forall c, i, j | 0 <= c < |waiting| && 0 <= i < j < |waiting[c]| :: waiting[c][i] != waiting[c][j])
      && (forall t | 0 <= t < |phase| && phase[t].Parked? :: phase[t].cond < |waiting| && Private(t))
    }

    predicate Private(t: Tid)
      requires Has(t) && |own| == |phase| && phase[t].Parked? && phase[t].cond < |waiting|
    {
      if t in waiting[phase[t].cond] then
        own[t].value == 0 && own[t].woken == {} && (own[t].queue == [] || own[t].queue == [t])
      else own[t].value == 1 && own[t].queue == []
    }

    ghost predicate Inv() {
      LockInv() && CondInv()
    }
  }

  function Fresh(threads: nat, conds: nat): Monitor {
    Monitor(Sem(1, [], {}), None, None, seq(conds, c => []), seq(threads, t => Sem(0, [], {})),
      seq(threads, t => Outside))
  }

  lemma FreshInv(threads: nat, conds: nat)
    ensures Fresh(threads, conds).Inv()
  {
  }

  lemma RequestKeeps(m: Monitor, t: Tid)
    requires m.Inv() && m.Has(t) && m.phase[t] == Outside
    ensures m.Request(t).Inv()
  {
  }

  lemma TryEnterKeeps(m: Monitor, t: Tid)
    requires m.Inv() && m.CanTryEnter(t)
    ensures m.TryEnter(t).Inv()
  {
    TryEnterLock(m, t);
  }

  lemma TryEnterLock(m: Monitor, t: Tid)
    requires m.LockInv() && m.CanTryEnter(t)
    ensures m.TryEnter(t).LockInv()
  {
    TryKeeps(m.mutex, t);
  }

  lemma TakeHolderKeeps(m: Monitor, t: Tid)
    requires m.Inv() && m.Has(t) && m.phase[t] == Entered
    ensures m.TakeHolder(t).Inv()
  {
  }

  lemma ReleaseKeeps(m: Monitor, t: Tid)
    requires m.Inv() && m.IsInside(t)
    ensures m.Release(t).Inv()
  {
    ReleaseLock(m, t);
  }

  lemma ReleaseLock(m: Monitor, t: Tid)
    requires m.LockInv() && m.IsInside(t)
    ensures m.Release(t).LockInv()
  {
    VKeeps(m.mutex);
  }

  lemma WaitKeeps(m: Monitor, t: Tid, c: nat)
    requires m.Inv() && m.IsInside(t) && c < |m.waiting|
    ensures m.Wait(t, c).Inv()
  {
    WaitLock(m, t, c);
    WaitCond(m, t, c);
  }

  lemma WaitLock(m: Monitor, t: Tid, c: nat)
    requires m.LockInv() && m.IsInside(t) && c < |m.waiting| && |m.own| == |m.phase|
    ensures m.Wait(t, c).LockInv()
  {
    VKeeps(m.mutex);
  }

  lemma WaitCond(m: Monitor, t: Tid, c: nat)
    requires m.CondInv() && m.IsInside(t) && c < |m.waiting|
    ensures m.Wait(t, c).CondInv()
  {
    var w := m.Wait(t, c);
    assert forall d, i | 0 <= d < |m.waiting| && 0 <= i < |m.waiting[d]| :: m.waiting[d][i] != t;
    forall s | 0 <= s < |w.phase| && w.phase[s].Parked? ensures w.phase[s].cond < |w.waiting| && w.Private(s) {
      if s != t {
        assert m.Private(s);
      }
    }
  }

  lemma TryWakeKeeps(m: Monitor, t: Tid)
    requires m.Inv() && m.CanTryWake(t)
    ensures m.TryWake(t).Inv()
  {
    assert m.Private(t);
    var w := m.TryWake(t);
    forall s | 0 <= s < |w.phase| && w.phase[s].Parked? ensures w.phase[s].cond < |w.waiting| && w.Private(s) {
      assert m.Private(s);
    }
  }

  lemma SignalKeeps(m: Monitor, c: nat)
    requires m.Inv() && c < |m.waiting|
    ensures m.waiting[c] != [] ==> m.waiting[c][0] < |m.own|
    ensures m.Signal(c).Inv()
  {
    SignalCond(m, c);
  }

  lemma SignalCond(m: Monitor, c: nat)
    requires m.CondInv() && c < |m.waiting|
    ensures m.waiting[c] != [] ==> m.waiting[c][0] < |m.own|
    ensures m.Signal(c).CondInv()
  {
    if m.waiting[c] != [] {
      var q, w := m.waiting[c], m.waiting[c][0];
      var n := m.Signal(c);
      assert q == [w] + q[1..];
      assert m.phase[w] == Parked(c) && m.Private(w);
      forall s | 0 <= s < |n.phase| && n.phase[s].Parked? ensures n.phase[s].cond < |n.waiting| && n.Private(s) {
        assert m.Private(s);
      }
      assert forall i | 0 <= i < |q[1..]| :: q[1..][i] == q[i + 1];
    }
  }

  /** Condition::Broadcast: Signal while anyone waits. */
  ghost function Broadcast(m: Monitor, c: nat): Monitor
    requires m.Inv() && c < |m.waiting|
    decreases if c < |m.waiting| then |m.waiting[c]| else 0
  {
    SignalKeeps(m, c);
    if m.waiting[c] == [] then m else Broadcast(m.Signal(c), c)
  }

  lemma {:induction false} BroadcastKeeps(m: Monitor, c: nat)
    requires m.Inv() && c < |m.waiting|
    ensures Broadcast(m, c).Inv()
    decreases |m.waiting[c]|
  {
    SignalKeeps(m, c);
    if m.waiting[c] != [] {
      BroadcastKeeps(m.Signal(c), c);
    }
  }

  lemma {:induction false} BroadcastEmpties(m: Monitor, c: nat)
    requires m.Inv() && c < |m.waiting|
    ensures var n := Broadcast(m, c);
            n.waiting == m.waiting[c := []] && n.phase == m.phase && n.mutex == m.mutex && |n.own| == |m.own|
    decreases |m.waiting[c]|
  {
    SignalKeeps(m, c);
    if m.waiting[c] == [] {
      assert m.waiting[c := []] == m.waiting;
    } else {
      var n := m.Signal(c);
      BroadcastEmpties(n, c);
      assert n.waiting[c := []] == m.waiting[c := []];
    }
  }

  lemma SignalOne(m: Monitor, c: nat, t: Tid)
    requires m.Inv() && c < |m.waiting| && m.waiting[c] != [] && t < |m.own|
    ensures var (q, n) := (m.waiting[c], m.Signal(c));
            && q[0] < |m.own| && n.waiting[c] == q[1..] && |n.own| == |m.own|
            && n.own[t] == (if t == q[0] then m.own[t].V() else m.own[t])
            && (t in q <==> t == q[0] || t in q[1..]) && (t == q[0] ==> t !in q[1..] && m.own[t].value == 0)
  {
    var q := m.waiting[c];
    assert q == [q[0]] + q[1..];
  }

  /** Broadcast leaves no thread waiting there, gives each that was a unit of its own, and touches nobody else. */
  lemma {:induction false} BroadcastWakesAll(m: Monitor, c: nat, t: Tid)
    requires m.Inv() && c < |m.waiting| && t < |m.own|
    ensures var n := Broadcast(m, c);
            && n.waiting == m.waiting[c := []] && n.phase == m.phase && n.mutex == m.mutex && |n.own| == |m.own|
            && if t in m.waiting[c] then n.own[t].value == 1 else n.own[t] == m.own[t]
    decreases |m.waiting[c]|
  {
    BroadcastEmpties(m, c);
    SignalKeeps(m, c);
    if m.waiting[c] != [] {
      SignalOne(m, c, t);
      BroadcastWakesAll(m.Signal(c), c, t);
    }
  }

  // Progress

  /** A thread that is not asleep on the lock or, inside Wait, on its own semaphore. */
  predicate Awake(m: Monitor, t: Tid) {
    && t < |m.phase| == |m.own|
    && (m.phase[t] == Entering ==> t !in m.mutex.queue) && (m.phase[t].Parked? ==> t !in m.own[t].queue)
  }

  /** Where a thread wants the lock, some thread at the lock is awake or has it. */
  lemma LockMoves(m: Monitor, t: Tid) returns (u: Tid)
    requires m.LockInv() && |m.own| == |m.phase| && m.Has(t) && m.phase[t] == Entering
    ensures m.Has(u) && m.phase[u] in {Entering, Entered, Inside} && Awake(m, u)
  {
    if t !in m.mutex.queue {
      u := t;
    } else if m.owner.Some? {
      u := m.owner.value;
    } else {
      assert m.mutex.woken != {};
      u :| u in m.mutex.woken;
    }
  }
}

/** The most general client of a lock and its conditions: a thread inside may signal, wait or leave as it likes. */
module MonitorRuns {
  import opened Options
  import opened Semaphores
  import opened Monitors

  datatype Step =
    | Acquire(t: Tid) | TryLock(t: Tid) | SetHolder(t: Tid) | Leave(t: Tid)
    | Sleep(t: Tid, c: nat) | TryAwake(t: Tid) | Notify(t: Tid, c: nat)

  predicate Next(m: Monitor, step: Step, m': Monitor) {
    match step
    case Acquire(t) => m.Has(t) && m.phase[t] == Outside && m' == m.Request(t)
    case TryLock(t) => m.CanTryEnter(t) && m' == m.TryEnter(t)
    case SetHolder(t) => m.Has(t) && m.phase[t] == Entered && m' == m.TakeHolder(t)
    case Leave(t) => m.IsInside(t) && m' == m.Release(t)
    case Sleep(t, c) => m.IsInside(t) && c < |m.waiting| && |m.own| == |m.phase| && m' == m.Wait(t, c)
    case TryAwake(t) => m.CanTryWake(t) && m' == m.TryWake(t)
    case Notify(t, c) =>
      m.IsInside(t) && c < |m.waiting| && (m.waiting[c] != [] ==> m.waiting[c][0] < |m.own|) && m' == m.Signal(c)
  }

  lemma NextKeeps(m: Monitor, step: Step, m': Monitor)
    requires m.Inv() && Next(m, step, m')
    ensures m'.Inv()
  {
    match step
    case Acquire(t) => RequestKeeps(m, t);
    case TryLock(t) => TryEnterKeeps(m, t);
    case SetHolder(t) => TakeHolderKeeps(m, t);
    case Leave(t) => ReleaseKeeps(m, t);
    case Sleep(t, c) => WaitKeeps(m, t, c);
    case TryAwake(t) => TryWakeKeeps(m, t);
    case Notify(t, c) => SignalKeeps(m, c);
  }

  predicate Run(states: seq<Monitor>, steps: seq<Step>, threads: nat, conds: nat) {
    && |states| == |steps| + 1 && states[0] == Fresh(threads, conds)
    && forall i | 0 <= i < |steps| :: Next(states[i], steps[i], states[i + 1])
  }

  lemma {:induction false} RunsKeepInv(states: seq<Monitor>, steps: seq<Step>, threads: nat, conds: nat, i: nat)
    requires Run(states, steps, threads, conds) && i < |states|
    ensures states[i].Inv()
  {
    if i == 0 {
      FreshInv(threads, conds);
    } else {
      RunsKeepInv(states, steps, threads, conds, i - 1);
      NextKeeps(states[i - 1], steps[i - 1], states[i]);
    }
  }

  /** At most one thread is between the P of Acquire and the V of Release, and it alone can pass Release's ASSERT. */
  lemma MutualExclusion(states: seq<Monitor>, steps: seq<Step>, threads: nat, conds: nat, i: nat, t: Tid, u: Tid)
    requires Run(states, steps, threads, conds) && i < |states| && states[i].Has(t) && states[i].Has(u)
    requires states[i].phase[t] in {Entered, Inside} && states[i].phase[u] in {Entered, Inside}
    ensures t == u
    ensures states[i].phase[t] == Inside <==> states[i].holder == Some(t)
  {
    RunsKeepInv(states, steps, threads, conds, i);
  }

  /**
   * No signal is lost: a thread in Wait is on the condition's queue exactly while no Signal has picked it, and
   * from then on it is awake with a unit waiting for it, even if the Signal came before its P.
   */
  lemma SignalsAreKept(states: seq<Monitor>, steps: seq<Step>, threads: nat, conds: nat, i: nat, t: Tid)
    requires Run(states, steps, threads, conds) && i < |states| && states[i].Has(t) && states[i].phase[t].Parked?
    ensures var m := states[i];
            && m.phase[t].cond < |m.waiting| && |m.own| == |m.phase|
            && (t in m.waiting[m.phase[t].cond] <==> m.own[t].value == 0)
            && (m.own[t].value > 0 ==> m.CanTryWake(t) && m.TryWake(t).phase[t] == Entering)
  {
    RunsKeepInv(states, steps, threads, conds, i);
    assert states[i].Private(t);
  }

  // First in, first out

  /** The threads that called Wait on condition `c` in the first `n` steps, in that order. */
  function Waited(steps: seq<Step>, c: nat, n: nat): seq<Tid>
    requires n <= |steps|
  {
    if n == 0 then []
    else
      var before := Waited(steps, c, n - 1);
      if steps[n - 1].Sleep? && steps[n - 1].c == c then before + [steps[n - 1].t] else before
  }

  /** How many Signals on condition `c`, in the first `n` steps, found a thread waiting. */
  function Signalled(states: seq<Monitor>, steps: seq<Step>, c: nat, n: nat): nat
    requires n <= |steps| < |states|
  {
    if n == 0 then 0
    else
      var found := steps[n - 1].Notify? && steps[n - 1].c == c && c < |states[n - 1].waiting|
        && states[n - 1].waiting[c] != [];
      Signalled(states, steps, c, n - 1) + if found then 1 else 0
  }

  lemma QueueStep(m: Monitor, step: Step, m': Monitor, c: nat)
    requires Next(m, step, m') && c < |m.waiting|
    ensures |m'.waiting| == |m.waiting|
    ensures m'.waiting[c] == if step.Sleep? && step.c == c then m.waiting[c] + [step.t]
                             else if step.Notify? && step.c == c && m.waiting[c] != [] then m.waiting[c][1..]
                             else m.waiting[c]
  {
  }

  /** A condition's queue is the threads that called Wait on it, in that order, less as many as Signals have picked. */
  lemma {:induction false} ConditionIsFifo(
    states: seq<Monitor>, steps: seq<Step>, threads: nat, conds: nat, c: nat, n: nat)
    requires Run(states, steps, threads, conds) && n < |states| && c < conds
    ensures |states[n].waiting| == conds && Signalled(states, steps, c, n) <= |Waited(steps, c, n)|
    ensures states[n].waiting[c] == Waited(steps, c, n)[Signalled(states, steps, c, n)..]
  {
    if n > 0 {
      ConditionIsFifo(states, steps, threads, conds, c, n - 1);
      QueueStep(states[n - 1], steps[n - 1], states[n], c);
    }
  }

  /** A Signal wakes the thread that has waited longest: it gets the unit that lets it go on. */
  lemma SignalPicksFirst(states: seq<Monitor>, steps: seq<Step>, threads: nat, conds: nat, c: nat, n: nat)
    requires Run(states, steps, threads, conds) && n < |steps| && c < conds
    requires steps[n].Notify? && steps[n].c == c && Signalled(states, steps, c, n) < |Waited(steps, c, n)|
    ensures var t := Waited(steps, c, n)[Signalled(states, steps, c, n)];
            && t < |states[n].own| == |states[n + 1].own|
            && states[n].own[t].value == 0 && states[n + 1].own[t].value == 1
  {
    ConditionIsFifo(states, steps, threads, conds, c, n);
    RunsKeepInv(states, steps, threads, conds, n);
    assert Next(states[n], steps[n], states[n + 1]);
    var t := states[n].waiting[c][0];
    assert states[n].phase[t] == Parked(c) && states[n].own[t].value == 0;
  }

  /** A thread that is awake and has called something can always take its next step. */
  lemma AwakeMoves(m: Monitor, t: Tid) returns (step: Step, m': Monitor)
    requires m.Inv() && Awake(m, t) && m.phase[t] != Outside
    ensures Next(m, step, m') && step.t == t
  {
    match m.phase[t]
    case Entering => step, m' := TryLock(t), m.TryEnter(t);
    case Entered => step, m' := SetHolder(t), m.TakeHolder(t);
    case Inside => step, m' := Leave(t), m.Release(t);
    case Parked(_) => step, m' := TryAwake(t), m.TryWake(t);
  }
}
