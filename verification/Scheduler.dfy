/**
 * Threads and the ready list: nachos64/code/threads/thread.cc and scheduler.cc, with the semaphore queues on which
 * threads sleep. The current thread changes only inside Run.
 */
module Scheduler {
  import opened Options
  import opened Semaphores

  datatype Status = JustCreated | Running | Ready | Blocked

  /** Where a thread is. `Held` has been taken from the ready list and is about to be run. */
  datatype Place = Unborn | OnCpu | OnReady | Held | OnQueue(sem: nat) | Gone

  function StatusAt(place: Place): Status {
    match place
    case Unborn => JustCreated
    case OnCpu => Running
    case OnReady => Ready
    case Held => Ready
    case OnQueue(_) => Blocked
    case Gone => Blocked
  }

  /** `place` is not stored by the code. `enqueued` and `dispatched` log the calls of ReadyToRun and FindNextToRun. */
  datatype Kernel = Kernel(
    place: seq<Place>, status: seq<Status>, ready: seq<Tid>, queues: seq<seq<Tid>>, values: seq<nat>, current: Tid,
    enqueued: seq<Tid>, dispatched: seq<Tid>)
  {
    predicate Shaped() {
      current < |place| == |status| && |values| == |queues| && forall j | 0 <= j < |ready| :: ready[j] < |place|
    }
  }

  // What the operations do

  function MadeReady(k: Kernel, t: Tid): Kernel
    requires k.Shaped() && t < |k.place|
  {
    k.(place := k.place[t := OnReady], status := k.status[t := Ready], ready := k.ready + [t],
      enqueued := k.enqueued + [t])
  }

  function TookNext(k: Kernel): Kernel
    requires k.Shaped() && k.ready != []
  {
    k.(place := k.place[k.ready[0] := Held], ready := k.ready[1..], dispatched := k.dispatched + [k.ready[0]])
  }

  function Switched(k: Kernel, t: Tid): Kernel
    requires k.Shaped() && t < |k.place|
  {
    k.(place := k.place[t := OnCpu], status := k.status[t := Running], current := t)
  }

  function Yielded(k: Kernel): Kernel
    requires k.Shaped()
  {
    if k.ready == [] then k else Switched(MadeReady(TookNext(k), k.current), k.ready[0])
  }

  /** The current thread stops running, and is from then on at `place`. */
  function Stopped(k: Kernel, place: Place): Kernel
    requires k.Shaped()
  {
    k.(place := k.place[k.current := place], status := k.status[k.current := Blocked])
  }

  /** One pass of the loop in P. */
  function Tested(k: Kernel, i: nat): Kernel
    requires k.Shaped() && i < |k.queues|
  {
    if k.values[i] > 0 then k.(values := k.values[i := k.values[i] - 1])
    else Stopped(k.(queues := k.queues[i := k.queues[i] + [k.current]]), OnQueue(i))
  }

  function Signalled(k: Kernel, i: nat): Kernel
    requires k.Shaped() && i < |k.queues| && (k.queues[i] != [] ==> k.queues[i][0] < |k.place|)
  {
    var k' := k.(values := k.values[i := k.values[i] + 1]);
    if k.queues[i] == [] then k'
    else MadeReady(k'.(queues := k.queues[i := k.queues[i][1..]]), k.queues[i][0])
  }

  /** The end of Sleep. */
  function Resumed(k: Kernel): Kernel
    requires k.Shaped() && k.ready != []
  {
    Switched(TookNext(k), k.ready[0])
  }

  // The invariant

  predicate Lists(list: seq<Tid>, place: seq<Place>, here: Place) {
    && (forall j | 0 <= j < |list| :: list[j] < |place| && place[list[j]] == here)
    && (forall i, j | 0 <= i < j < |list| :: list[i] != list[j])
    && (forall t | 0 <= t < |place| && place[t] == here :: t in list)
  }

  predicate QueueOk(queues: seq<seq<Tid>>, place: seq<Place>, i: int)
    requires 0 <= i < |queues|
  {
    Lists(queues[i], place, OnQueue(i))
  }

  ghost predicate AllLists(ready: seq<Tid>, queues: seq<seq<Tid>>, place: seq<Place>) {
    && Lists(ready, place, OnReady)
    && (forall i | 0 <= i < |queues| :: QueueOk(queues, place, i))
  }

  /** Status and place of a thread agree, only the current thread is on the CPU, and none is between lists. */
  predicate PlacedAt(k: Kernel, t: int)
    requires k.Shaped() && 0 <= t < |k.place|
  {
    && k.status[t] == StatusAt(k.place[t]) && (k.place[t] == OnCpu ==> t == k.current) && k.place[t] != Held
    && (k.place[t].OnQueue? ==> k.place[t].sem < |k.queues|)
  }

  /**
   * Every list holds exactly the threads that are at its place, once each; `place` being a function, no thread is on
   * two.
   */
  ghost predicate Inv(k: Kernel) {
    && k.Shaped() && AllLists(k.ready, k.queues, k.place)
    && (forall t | 0 <= t < |k.place| :: PlacedAt(k, t))
    && k.enqueued == k.dispatched + k.ready
  }

  lemma Appended(list: seq<Tid>, place: seq<Place>, here: Place, t: Tid)
    requires Lists(list, place, here) && t < |place| && place[t] != here
    ensures Lists(list + [t], place[t := here], here)
  {
    forall u | 0 <= u < |place| && place[t := here][u] == here ensures u in list + [t] {
      assert u != t ==> u in list;
    }
  }

  lemma Taken(list: seq<Tid>, place: seq<Place>, here: Place, there: Place)
    requires Lists(list, place, here) && list != [] && there != here
    ensures Lists(list[1..], place[list[0] := there], here)
  {
    forall u | 0 <= u < |place| && place[list[0] := there][u] == here ensures u in list[1..] {
      assert u in list && list == [list[0]] + list[1..];
    }
  }

  lemma Elsewhere(list: seq<Tid>, place: seq<Place>, here: Place, t: Tid, there: Place)
    requires Lists(list, place, here) && t < |place| && place[t] != here && there != here
    ensures Lists(list, place[t := there], here)
  {
  }

  lemma QueuesElsewhere(queues: seq<seq<Tid>>, place: seq<Place>, t: Tid, there: Place)
    requires forall i | 0 <= i < |queues| :: QueueOk(queues, place, i)
    requires t < |place| && !place[t].OnQueue? && !there.OnQueue?
    ensures var place' := place[t := there]; forall i | 0 <= i < |queues| :: QueueOk(queues, place', i)
  {
    var place' := place[t := there];
    forall i | 0 <= i < |queues| ensures QueueOk(queues, place', i) {
      assert QueueOk(queues, place, i);
      Elsewhere(queues[i], place, OnQueue(i), t, there);
    }
  }

  lemma ForkLists(ready: seq<Tid>, queues: seq<seq<Tid>>, place: seq<Place>, t: Tid)
    requires AllLists(ready, queues, place) && t < |place| && !place[t].OnQueue? && place[t] != OnReady
    ensures AllLists(ready + [t], queues, place[t := OnReady])
  {
    Appended(ready, place, OnReady, t);
    QueuesElsewhere(queues, place, t, OnReady);
  }

  lemma TakeLists(ready: seq<Tid>, queues: seq<seq<Tid>>, place: seq<Place>, there: Place)
    requires AllLists(ready, queues, place) && ready != [] && (there == OnCpu || there == Held)
    ensures ready[0] < |place| && AllLists(ready[1..], queues, place[ready[0] := there])
  {
    Taken(ready, place, OnReady, there);
    QueuesElsewhere(queues, place, ready[0], there);
  }

  lemma LeaveLists(ready: seq<Tid>, queues: seq<seq<Tid>>, place: seq<Place>, t: Tid, there: Place)
    requires AllLists(ready, queues, place) && t < |place| && !place[t].OnQueue? && !there.OnQueue?
    requires place[t] != OnReady && there != OnReady
    ensures AllLists(ready, queues, place[t := there])
  {
    Elsewhere(ready, place, OnReady, t, there);
    QueuesElsewhere(queues, place, t, there);
  }

  lemma SleepLists(ready: seq<Tid>, queues: seq<seq<Tid>>, place: seq<Place>, t: Tid, i: nat)
    requires AllLists(ready, queues, place) && t < |place| && !place[t].OnQueue? && place[t] != OnReady && i < |queues|
    ensures AllLists(ready, queues[i := queues[i] + [t]], place[t := OnQueue(i)])
  {
    Elsewhere(ready, place, OnReady, t, OnQueue(i));
    var queues', place' := queues[i := queues[i] + [t]], place[t := OnQueue(i)];
    forall j | 0 <= j < |queues| ensures QueueOk(queues', place', j) {
      assert QueueOk(queues, place, j);
      if j == i {
        Appended(queues[i], place, OnQueue(i), t);
      } else {
        Elsewhere(queues[j], place, OnQueue(j), t, OnQueue(i));
      }
    }
  }

  lemma WakeLists(ready: seq<Tid>, queues: seq<seq<Tid>>, place: seq<Place>, i: nat)
    requires AllLists(ready, queues, place) && i < |queues| && queues[i] != []
    ensures var t := queues[i][0];
            && t < |place| && place[t] == OnQueue(i)
            && AllLists(ready + [t], queues[i := queues[i][1..]], place[t := OnReady])
  {
    assert QueueOk(queues, place, i);
    var t := queues[i][0];
    Appended(ready, place, OnReady, t);
    var queues', place' := queues[i := queues[i][1..]], place[t := OnReady];
    forall j | 0 <= j < |queues| ensures QueueOk(queues', place', j) {
      assert QueueOk(queues, place, j);
      if j == i {
        Taken(queues[i], place, OnQueue(i), OnReady);
      } else {
        Elsewhere(queues[j], place, OnQueue(j), t, OnReady);
      }
    }
  }

  // Steps

  /** Steps of the running thread, of interrupt handlers (V, also while the CPU is idle) and of the loop in Sleep. */
  datatype Step = ForkStep(t: Tid) | YieldStep | PStep(sem: nat) | VStep(sem: nat) | FinishStep | DispatchStep

  predicate Enabled(k: Kernel, step: Step)
    requires k.Shaped()
  {
    var running := k.place[k.current] == OnCpu;
    match step
    case ForkStep(t) => running && t < |k.place| && k.place[t] == Unborn
    case YieldStep => running
    case PStep(i) => running && i < |k.queues|
    case VStep(i) => i < |k.queues| && (k.queues[i] != [] ==> k.queues[i][0] < |k.place|)
    case FinishStep => running
    case DispatchStep => !running && k.ready != []
  }

  function Next(k: Kernel, step: Step): Kernel
    requires k.Shaped() && Enabled(k, step)
  {
    match step
    case ForkStep(t) => MadeReady(k, t)
    case YieldStep => Yielded(k)
    case PStep(i) => Tested(k, i)
    case VStep(i) => Signalled(k, i)
    case FinishStep => Stopped(k, Gone)
    case DispatchStep => Resumed(k)
  }

  lemma ReadyKeeps(k: Kernel, t: Tid)
    requires Inv(k) && t < |k.place| && k.place[t] == Unborn
    ensures Inv(MadeReady(k, t))
  {
    ForkLists(k.ready, k.queues, k.place, t);
    var k' := MadeReady(k, t);
    forall u | 0 <= u < |k.place| ensures PlacedAt(k', u) {
      assert PlacedAt(k, u);
    }
  }

  lemma DispatchKeeps(k: Kernel)
    requires Inv(k) && k.ready != [] && k.place[k.current] != OnCpu
    ensures Inv(Resumed(k))
  {
    var t := k.ready[0];
    TakeLists(k.ready, k.queues, k.place, OnCpu);
    var k' := Resumed(k);
    assert k'.place == k.place[t := OnCpu];
    forall u | 0 <= u < |k.place| ensures PlacedAt(k', u) {
      assert PlacedAt(k, u) && PlacedAt(k, k.current);
    }
    assert k.dispatched + k.ready == k'.dispatched + k'.ready;
  }

  lemma YieldPlaces(k: Kernel)
    requires Inv(k) && k.place[k.current] == OnCpu && k.ready != []
    ensures Yielded(k).place == k.place[k.ready[0] := OnCpu][k.current := OnReady]
    ensures var k' := Yielded(k); k'.Shaped() && forall u | 0 <= u < |k.place| :: PlacedAt(k', u)
  {
    var k' := Yielded(k);
    assert k.ready[0] != k.current;
    forall u | 0 <= u < |k.place| ensures PlacedAt(k', u) {
      assert PlacedAt(k, u);
    }
  }

  /** Yield gives the CPU to the head of the ready list and sends the caller to its end; alone, it returns at once. */
  lemma YieldRotates(k: Kernel)
    requires Inv(k) && k.place[k.current] == OnCpu
    ensures var k' := Yielded(k);
            if k.ready == [] then k' == k
            else k'.current == k.ready[0] && k'.ready == k.ready[1..] + [k.current] && k'.values == k.values
                 && k'.queues == k.queues && k'.status[k.ready[0]] == Running && k'.status[k.current] == Ready
  {
    if k.ready != [] {
      assert k.ready[0] != k.current;
    }
  }

  /** The end of Sleep gives it to the head of the ready list. */
  lemma DispatchRunsHead(k: Kernel)
    requires Inv(k) && k.ready != []
    ensures var k' := Resumed(k);
            && k'.current == k.ready[0] && k'.ready == k.ready[1..] && k'.values == k.values && k'.queues == k.queues
            && k'.status[k.ready[0]] == Running && k'.dispatched == k.dispatched + [k.ready[0]]
  {
  }

  lemma YieldKeeps(k: Kernel)
    requires Inv(k) && k.place[k.current] == OnCpu
    ensures Inv(Yielded(k))
  {
    if k.ready != [] {
      var t, c := k.ready[0], k.current;
      TakeLists(k.ready, k.queues, k.place, OnCpu);
      ForkLists(k.ready[1..], k.queues, k.place[t := OnCpu], c);
      YieldPlaces(k);
      assert k.dispatched + k.ready + [c] == (k.dispatched + [t]) + (k.ready[1..] + [c]);
    }
  }

  lemma BlockKeeps(k: Kernel, k': Kernel, there: Place)
    requires Inv(k) && k.place[k.current] == OnCpu && StatusAt(there) == Blocked
             && (there.OnQueue? ==> there.sem < |k.queues|)
    requires k' == Stopped(k, there).(queues := k'.queues) && |k'.queues| == |k.queues|
    requires AllLists(k.ready, k'.queues, k'.place)
    ensures Inv(k')
  {
    forall u | 0 <= u < |k.place| ensures PlacedAt(k', u) {
      assert PlacedAt(k, u);
    }
  }

  lemma TryPKeeps(k: Kernel, i: nat)
    requires Inv(k) && k.place[k.current] == OnCpu && i < |k.queues|
    ensures Inv(Tested(k, i))
  {
    var k' := Tested(k, i);
    if k.values[i] == 0 {
      SleepLists(k.ready, k.queues, k.place, k.current, i);
      BlockKeeps(k, k', OnQueue(i));
    } else {
      forall u | 0 <= u < |k.place| ensures PlacedAt(k', u) {
        assert PlacedAt(k, u);
      }
    }
  }

  lemma SignalKeeps(k: Kernel, i: nat)
    requires Inv(k) && i < |k.queues|
    ensures (k.queues[i] != [] ==> k.queues[i][0] < |k.place|) && Inv(Signalled(k, i))
  {
    if k.queues[i] != [] {
      WakeLists(k.ready, k.queues, k.place, i);
    }
    var k' := Signalled(k, i);
    forall u | 0 <= u < |k.place| ensures PlacedAt(k', u) {
      assert PlacedAt(k, u);
    }
  }

  lemma NextKeeps(k: Kernel, step: Step)
    requires Inv(k) && Enabled(k, step)
    ensures Inv(Next(k, step))
  {
    match step
    case ForkStep(t) => ReadyKeeps(k, t);
    case YieldStep => YieldKeeps(k);
    case PStep(i) => TryPKeeps(k, i);
    case VStep(i) => SignalKeeps(k, i);
    case FinishStep =>
      LeaveLists(k.ready, k.queues, k.place, k.current, Gone);
      BlockKeeps(k, Stopped(k, Gone), Gone);
    case DispatchStep => DispatchKeeps(k);
  }

  // Runs

  /** The main thread runs; the others are still to be forked. */
  ghost predicate Initial(k: Kernel) {
    && k.Shaped() && k.ready == [] && k.enqueued == [] && k.dispatched == []
    && (forall i | 0 <= i < |k.queues| :: k.queues[i] == [])
    && (forall t | 0 <= t < |k.place| :: k.place[t] == (if t == k.current then OnCpu else Unborn))
    && (forall t | 0 <= t < |k.place| :: k.status[t] == StatusAt(k.place[t]))
  }

  ghost predicate RunOf(states: seq<Kernel>, steps: seq<Step>) {
    && |states| == |steps| + 1 && Initial(states[0])
    && forall i | 0 <= i < |steps| ::
         states[i].Shaped() && Enabled(states[i], steps[i]) && states[i + 1] == Next(states[i], steps[i])
  }

  lemma {:induction false} RunsKeepInv(states: seq<Kernel>, steps: seq<Step>, i: nat)
    requires RunOf(states, steps) && i < |states|
    ensures Inv(states[i])
  {
    if i > 0 {
      RunsKeepInv(states, steps, i - 1);
      NextKeeps(states[i - 1], steps[i - 1]);
    } else {
      var k := states[0];
      forall j | 0 <= j < |k.queues| ensures QueueOk(k.queues, k.place, j) {
      }
      forall t | 0 <= t < |k.place| ensures PlacedAt(k, t) {
      }
    }
  }

  lemma {:induction false} OnceIn(list: seq<Tid>, t: Tid)
    requires forall i, j | 0 <= i < j < |list| :: list[i] != list[j]
    ensures multiset(list)[t] == if t in list then 1 else 0
  {
    if list != [] {
      assert list == [list[0]] + list[1..];
      OnceIn(list[1..], t);
    }
  }

  lemma ListedOnce(list: seq<Tid>, place: seq<Place>, here: Place, t: Tid)
    requires Lists(list, place, here) && t < |place|
    ensures multiset(list)[t] == if place[t] == here then 1 else 0
  {
    OnceIn(list, t);
  }

  /**
   * A thread's status says where it is, in every reachable state: running if it is the current one, once on the ready
   * list, once on one semaphore queue or finished, or not yet forked; and it is nowhere else.
   */
  lemma OnePlace(states: seq<Kernel>, steps: seq<Step>, i: nat, t: Tid, s: nat)
    requires RunOf(states, steps) && i < |states| && t < |states[i].place| && s < |states[i].queues|
    ensures var k := states[i];
            && t < |k.status| && (k.status[t] == Running ==> t == k.current)
            && multiset(k.ready)[t] == (if k.status[t] == Ready then 1 else 0)
            && multiset(k.queues[s])[t] == (if k.place[t] == OnQueue(s) then 1 else 0)
            && (k.place[t].OnQueue? ==> k.status[t] == Blocked && k.place[t].sem < |k.queues|)
            && (k.status[t] == Blocked ==> k.place[t].OnQueue? || k.place[t] == Gone)
            && (k.status[t] == JustCreated <==> k.place[t] == Unborn)
  {
    RunsKeepInv(states, steps, i);
    var k := states[i];
    assert PlacedAt(k, t) && QueueOk(k.queues, k.place, s);
    ListedOnce(k.ready, k.place, OnReady, t);
    ListedOnce(k.queues[s], k.place, OnQueue(s), t);
  }

  lemma {:induction false} LogsGrow(states: seq<Kernel>, steps: seq<Step>, i: nat, j: nat)
    requires RunOf(states, steps) && i <= j < |states|
    ensures states[i].enqueued <= states[j].enqueued && states[i].dispatched <= states[j].dispatched
    decreases j
  {
    if i < j {
      LogsGrow(states, steps, i, j - 1);
    }
  }

  /**
   * A thread with `ahead` others before it on the ready list is what the call of FindNextToRun after the next `ahead`
   * returns.
   */
  lemma FirstInFirstOut(states: seq<Kernel>, steps: seq<Step>, i: nat, j: nat, ahead: nat)
    requires RunOf(states, steps) && i <= j < |states| && ahead < |states[i].ready|
    requires |states[j].dispatched| > |states[i].dispatched| + ahead
    ensures states[j].dispatched[|states[i].dispatched| + ahead] == states[i].ready[ahead]
  {
    RunsKeepInv(states, steps, i);
    RunsKeepInv(states, steps, j);
    LogsGrow(states, steps, i, j);
    var n := |states[i].dispatched| + ahead;
    assert states[j].dispatched[n] == states[j].enqueued[n] == states[i].enqueued[n];
  }

  // Sleep: interrupt handlers run until one of them makes a thread ready

  /** The state after V on the first `n` of `sems`. */
  ghost function SignalledFirst(k: Kernel, sems: seq<nat>, n: nat): (k': Kernel)
    requires Inv(k) && n <= |sems| && forall b | 0 <= b < |sems| :: sems[b] < |k.queues|
    ensures Inv(k') && |k'.queues| == |k.queues| && |k'.place| == |k.place| && k'.current == k.current
    ensures k'.dispatched == k.dispatched && (k.place[k.current] != OnCpu ==> k'.place[k.current] != OnCpu)
  {
    if n == 0 then k
    else
      var k' := SignalledFirst(k, sems, n - 1);
      SignalKeeps(k', sems[n - 1]);
      Signalled(k', sems[n - 1])
  }

  predicate Known(interrupts: seq<seq<nat>>, sems: nat) {
    forall a, b | 0 <= a < |interrupts| && 0 <= b < |interrupts[a]| :: interrupts[a][b] < sems
  }

  /**
   * The state in which Sleep finds a thread to run, or in which no interrupt is left to wait for. In each call of Idle
   * handlers do V on the semaphores of one element of `interrupts`.
   */
  ghost function Awaited(k: Kernel, interrupts: seq<seq<nat>>, n: nat := 0): (k': Kernel)
    requires Inv(k) && n <= |interrupts| && Known(interrupts, |k.queues|)
    ensures Inv(k') && |k'.queues| == |k.queues| && |k'.place| == |k.place| && k'.current == k.current
    ensures k'.dispatched == k.dispatched && (k.place[k.current] != OnCpu ==> k'.place[k.current] != OnCpu)
    decreases |interrupts| - n
  {
    if k.ready != [] || n == |interrupts| then k
    else Awaited(SignalledFirst(k, interrupts[n], |interrupts[n]|), interrupts, n + 1)
  }

  /**
   * Sleep from state `k`, in which the current thread no longer runs: a dispatch, or a halt if all waiting is in vain.
   */
  ghost predicate Slept(k: Kernel, interrupts: seq<seq<nat>>, halted: bool, k': Kernel)
    requires Inv(k) && Known(interrupts, |k.queues|)
  {
    var w := Awaited(k, interrupts);
    halted == (w.ready == []) && k' == if halted then w else Resumed(w)
  }

  lemma {:induction false} GoneStays(k: Kernel, sems: seq<nat>, n: nat, t: Tid)
    requires Inv(k) && n <= |sems| && forall b | 0 <= b < |sems| :: sems[b] < |k.queues|
    requires t < |k.place| && k.place[t] == Gone
    ensures SignalledFirst(k, sems, n).place[t] == Gone
  {
    if n > 0 {
      GoneStays(k, sems, n - 1, t);
      var k' := SignalledFirst(k, sems, n - 1);
      assert QueueOk(k'.queues, k'.place, sems[n - 1]);
    }
  }

  lemma {:induction false} GoneForGood(k: Kernel, interrupts: seq<seq<nat>>, n: nat, t: Tid)
    requires Inv(k) && n <= |interrupts| && Known(interrupts, |k.queues|) && t < |k.place| && k.place[t] == Gone
    ensures Awaited(k, interrupts, n).place[t] == Gone
    decreases |interrupts| - n
  {
    if k.ready == [] && n < |interrupts| {
      GoneStays(k, interrupts[n], |interrupts[n]|, t);
      GoneForGood(SignalledFirst(k, interrupts[n], |interrupts[n]|), interrupts, n + 1, t);
    }
  }

  /** One pass of P's loop, or V, here and on a semaphore on its own are the same; `woken` is not stored by the code. */
  lemma SameSemaphore(k: Kernel, i: nat, woken: set<Tid>)
    requires Inv(k) && i < |k.queues|
    ensures var (sem, tested) := (Sem(k.values[i], k.queues[i], woken), Tested(k, i));
            sem.Try(k.current).value == tested.values[i] && sem.Try(k.current).queue == tested.queues[i]
    ensures Enabled(k, VStep(i))
    ensures var (sem, signalled) := (Sem(k.values[i], k.queues[i], woken), Signalled(k, i));
            && sem.V().value == signalled.values[i] && sem.V().queue == signalled.queues[i]
            && sem.V().woken - woken == (set t | t in signalled.ready && t !in k.ready && t !in woken)
  {
    assert QueueOk(k.queues, k.place, i);
    if k.queues[i] != [] {
      var t := k.queues[i][0];
      assert t !in k.ready by {
        assert k.place[t] == OnQueue(i);
      }
    }
  }

  // What Sleep comes to, in terms of the queues, the values and the interrupts alone

  /** How many of the first `n` of `sems` are `i`. */
  function Units(sems: seq<nat>, i: nat, n: nat): nat
    requires n <= |sems|
  {
    if n == 0 then 0 else Units(sems, i, n - 1) + if sems[n - 1] == i then 1 else 0
  }

  /** How often the first `n` interrupts do V on semaphore `i`. */
  function AllUnits(interrupts: seq<seq<nat>>, i: nat, n: nat): nat
    requires n <= |interrupts|
  {
    if n == 0 then 0 else AllUnits(interrupts, i, n - 1) + Units(interrupts[n - 1], i, |interrupts[n - 1]|)
  }

  predicate Asleep(queues: seq<seq<Tid>>, i: nat) {
    i < |queues| && queues[i] != []
  }

  /** The first V, from place `b` on, on a semaphore with a sleeper. */
  function FirstWake(queues: seq<seq<Tid>>, sems: seq<nat>, b: nat := 0): (r: nat)
    requires b <= |sems|
    ensures b <= r <= |sems| && (forall i | b <= i < r :: !Asleep(queues, sems[i]))
    ensures r < |sems| ==> Asleep(queues, sems[r])
    decreases |sems| - b
  {
    if b == |sems| || Asleep(queues, sems[b]) then b else FirstWake(queues, sems, b + 1)
  }

  predicate Wakes(queues: seq<seq<Tid>>, sems: seq<nat>) {
    exists b :: 0 <= b < |sems| && Asleep(queues, sems[b])
  }

  /** The first interrupt, from place `a` on, with a V on a semaphore with a sleeper. */
  function FirstInterrupt(queues: seq<seq<Tid>>, interrupts: seq<seq<nat>>, a: nat := 0): (r: nat)
    requires a <= |interrupts|
    ensures a <= r <= |interrupts| && (forall i | a <= i < r :: !Wakes(queues, interrupts[i]))
    ensures r < |interrupts| ==> Wakes(queues, interrupts[r])
    decreases |interrupts| - a
  {
    if a == |interrupts| || Wakes(queues, interrupts[a]) then a else FirstInterrupt(queues, interrupts, a + 1)
  }

  /**
   * Sleep with that ready list, those queues and those values. A ready thread runs at once. Otherwise interrupts are
   * taken up to the first that wakes a thread, and the first that it wakes runs; if there is none the machine halts.
   * Every V done on the way counts.
   */
  ghost predicate SleepLaw(
    ready: seq<Tid>, queues: seq<seq<Tid>>, values: seq<nat>, interrupts: seq<seq<nat>>, halted: bool, k': Kernel)
  {
    if ready != [] then !halted && k'.current == ready[0] && k'.values == values && k'.queues == queues
    else
      var a := FirstInterrupt(queues, interrupts);
      && halted == (a == |interrupts|)
      && |k'.values| == |values|
      && (forall i | 0 <= i < |values| ::
            k'.values[i] == values[i] + AllUnits(interrupts, i, if halted then a else a + 1))
      && if halted then k'.queues == queues
         else k'.current == queues[interrupts[a][FirstWake(queues, interrupts[a])]][0]
  }

  lemma {:induction false} ValuesRise(k: Kernel, sems: seq<nat>, n: nat)
    requires Inv(k) && n <= |sems| && forall b | 0 <= b < |sems| :: sems[b] < |k.queues|
    ensures var k' := SignalledFirst(k, sems, n);
            |k'.values| == |k.values| && forall i | 0 <= i < |k.values| ::
                k'.values[i] == k.values[i] + Units(sems, i, n)
  {
    if n > 0 {
      ValuesRise(k, sems, n - 1);
    }
  }

  /** A V on a semaphore without sleepers changes nothing but the value. */
  lemma {:induction false} InVain(k: Kernel, sems: seq<nat>, n: nat)
    requires Inv(k) && n <= |sems| && forall b | 0 <= b < |sems| :: sems[b] < |k.queues|
    requires forall b | 0 <= b < n :: !Asleep(k.queues, sems[b])
    ensures var k' := SignalledFirst(k, sems, n); k' == k.(values := k'.values)
  {
    if n > 0 {
      InVain(k, sems, n - 1);
      assert !Asleep(k.queues, sems[n - 1]);
    }
  }

  function AfterV(queues: seq<seq<Tid>>, i: nat): seq<seq<Tid>> {
    if Asleep(queues, i) then queues[i := queues[i][1..]] else queues
  }

  function QueuesAfter(queues: seq<seq<Tid>>, sems: seq<nat>, n: nat): seq<seq<Tid>>
    requires n <= |sems|
  {
    if n == 0 then queues else AfterV(QueuesAfter(queues, sems, n - 1), sems[n - 1])
  }

  /** The threads woken by the first `n` of `sems`. */
  function WokenBy(queues: seq<seq<Tid>>, sems: seq<nat>, n: nat): seq<Tid>
    requires n <= |sems|
  {
    if n == 0 then []
    else
      var q, before := QueuesAfter(queues, sems, n - 1), WokenBy(queues, sems, n - 1);
      if Asleep(q, sems[n - 1]) then before + [q[sems[n - 1]][0]] else before
  }

  lemma {:induction false} FirstWoken(queues: seq<seq<Tid>>, sems: seq<nat>, n: nat)
    requires n <= |sems|
    ensures var b := FirstWake(queues, sems);
            if n <= b then WokenBy(queues, sems, n) == [] && QueuesAfter(queues, sems, n) == queues
            else WokenBy(queues, sems, n) != [] && WokenBy(queues, sems, n)[0] == queues[sems[b]][0]
  {
    if n > 0 {
      FirstWoken(queues, sems, n - 1);
    }
  }

  lemma SignalMoves(k: Kernel, i: nat)
    requires Inv(k) && i < |k.queues|
    ensures Enabled(k, VStep(i)) && Signalled(k, i).queues == AfterV(k.queues, i)
    ensures Signalled(k, i).ready == if Asleep(k.queues, i) then k.ready + [k.queues[i][0]] else k.ready
  {
    assert QueueOk(k.queues, k.place, i);
  }

  lemma {:induction false} SignalsMove(k: Kernel, sems: seq<nat>, n: nat)
    requires Inv(k) && k.ready == [] && n <= |sems| && forall b | 0 <= b < |sems| :: sems[b] < |k.queues|
    ensures SignalledFirst(k, sems, n).queues == QueuesAfter(k.queues, sems, n)
    ensures SignalledFirst(k, sems, n).ready == WokenBy(k.queues, sems, n)
  {
    if n > 0 {
      SignalsMove(k, sems, n - 1);
      SignalMoves(SignalledFirst(k, sems, n - 1), sems[n - 1]);
    }
  }

  /** The first V on a semaphore with a sleeper puts that sleeper at the head of an empty ready list. */
  lemma WakesFirst(k: Kernel, sems: seq<nat>)
    requires Inv(k) && k.ready == [] && FirstWake(k.queues, sems) < |sems|
    requires forall b | 0 <= b < |sems| :: sems[b] < |k.queues|
    ensures var k' := SignalledFirst(k, sems, |sems|);
            k'.ready != [] && k'.ready[0] == k.queues[sems[FirstWake(k.queues, sems)]][0]
  {
    SignalsMove(k, sems, |sems|);
    FirstWoken(k.queues, sems, |sems|);
  }

  /** Awaited, started at interrupt `n` with nobody ready. */
  ghost predicate AwaitLaw(k: Kernel, interrupts: seq<seq<nat>>, n: nat, w: Kernel)
    requires n <= |interrupts|
  {
    var a := FirstInterrupt(k.queues, interrupts, n);
    && (w.ready == [] <==> a == |interrupts|)
    && |w.values| == |k.values|
    && (forall i | 0 <= i < |k.values| ::
          var taken := if w.ready == [] then a else a + 1;
          w.values[i] == k.values[i] + AllUnits(interrupts, i, taken) - AllUnits(interrupts, i, n))
    && if w.ready == [] then w.queues == k.queues
       else w.ready[0] == k.queues[interrupts[a][FirstWake(k.queues, interrupts[a])]][0]
  }

  lemma WakeEnds(k: Kernel, interrupts: seq<seq<nat>>, n: nat)
    requires Inv(k) && k.ready == [] && n < |interrupts| && Known(interrupts, |k.queues|)
    requires Wakes(k.queues, interrupts[n])
    ensures AwaitLaw(k, interrupts, n, Awaited(k, interrupts, n))
  {
    var sems := interrupts[n];
    WakesFirst(k, sems);
    ValuesRise(k, sems, |sems|);
    assert Awaited(k, interrupts, n) == SignalledFirst(k, sems, |sems|);
  }

  lemma {:induction false} AwaitedIs(k: Kernel, interrupts: seq<seq<nat>>, n: nat)
    requires Inv(k) && k.ready == [] && n <= |interrupts| && Known(interrupts, |k.queues|)
    ensures AwaitLaw(k, interrupts, n, Awaited(k, interrupts, n))
    decreases |interrupts| - n
  {
    if n < |interrupts| {
      var sems := interrupts[n];
      if Wakes(k.queues, sems) {
        WakeEnds(k, interrupts, n);
      } else {
        forall b | 0 <= b < |sems| ensures !Asleep(k.queues, sems[b]) {
        }
        InVain(k, sems, |sems|);
        ValuesRise(k, sems, |sems|);
        AwaitedIs(SignalledFirst(k, sems, |sems|), interrupts, n + 1);
      }
    }
  }

  lemma SleptLaw(k: Kernel, interrupts: seq<seq<nat>>, halted: bool, k': Kernel)
    requires Inv(k) && Known(interrupts, |k.queues|) && Slept(k, interrupts, halted, k')
    ensures SleepLaw(k.ready, k.queues, k.values, interrupts, halted, k')
  {
    if k.ready == [] {
      AwaitedIs(k, interrupts, 0);
    }
  }

  // The objects

  /** The scheduler's list, the semaphores, and the status of each thread. Methods run with interrupts off. */
  class System {
    var status: seq<Status>
    var ready: seq<Tid>
    var queues: seq<seq<Tid>>
    var values: seq<nat>
    var current: Tid
    ghost var place: seq<Place>
    ghost var enqueued: seq<Tid>
    ghost var dispatched: seq<Tid>

    ghost function State(): Kernel
      reads this
    {
      Kernel(place, status, ready, queues, values, current, enqueued, dispatched)
    }

    constructor (threads: nat, main: Tid, values: seq<nat>)
      requires main < threads
      ensures Initial(State()) && this.values == values && current == main && |status| == threads
    {
      status := seq(threads, t => if t == main then Running else JustCreated);
      place := seq(threads, t => if t == main then OnCpu else Unborn);
      queues := seq(|values|, i => []);
      this.values, ready, current := values, [], main;
      enqueued, dispatched := [], [];
    }

    method ReadyToRun(t: Tid)
      requires State().Shaped() && t < |status|
      modifies this
      ensures State() == MadeReady(old(State()), t)
    {
      status := status[t := Ready];
      ready := ready + [t];
      place, enqueued := place[t := OnReady], enqueued + [t];
    }

    method FindNextToRun() returns (next: Option<Tid>)
      requires State().Shaped()
      modifies this
      ensures if old(ready) == [] then next == None && State() == old(State())
              else next == Some(old(ready)[0]) && State() == TookNext(old(State()))
    {
      if ready == [] {
        return None;
      }
      next := Some(ready[0]);
      place, dispatched := place[ready[0] := Held], dispatched + [ready[0]];
      ready := ready[1..];
    }

    method Run(next: Tid)
      requires State().Shaped() && next < |status|
      modifies this
      ensures State() == Switched(old(State()), next)
    {
      current := next;
      status := status[next := Running];
      place := place[next := OnCpu];
    }

    method Yield()
      requires Inv(State()) && status[current] == Running
      modifies this
      ensures Inv(State()) && State() == Yielded(old(State()))
    {
      assert PlacedAt(State(), current);
      YieldKeeps(State());
      var next := FindNextToRun();
      if next != None {
        ReadyToRun(current);
        Run(next.value);
      }
    }

    method V(i: nat)
      requires Inv(State()) && i < |queues|
      modifies this
      ensures Inv(State()) && old(QueueOk(queues, place, i)) && State() == Signalled(old(State()), i)
    {
      assert QueueOk(queues, place, i);
      SignalKeeps(State(), i);
      values := values[i := values[i] + 1];
      if queues[i] != [] {
        var t := queues[i][0];
        queues := queues[i := queues[i][1..]];
        ReadyToRun(t);
      }
    }

    method Fork(t: Tid)
      requires Inv(State()) && t < |status| && status[t] == JustCreated
      modifies this
      ensures Inv(State()) && State() == MadeReady(old(State()), t)
    {
      assert PlacedAt(State(), t);
      ReadyKeeps(State(), t);
      ReadyToRun(t);
    }

    method Finish(interrupts: seq<seq<nat>>) returns (halted: bool)
      requires Inv(State()) && status[current] == Running && Known(interrupts, |queues|)
      modifies this
      ensures Inv(State()) && Inv(Stopped(old(State()), Gone))
      ensures Slept(Stopped(old(State()), Gone), interrupts, halted, State())
      ensures SleepLaw(old(ready), old(queues), old(values), interrupts, halted, State())
      ensures |place| == |old(place)| && place[old(current)] == Gone
    {
      assert PlacedAt(State(), current);
      NextKeeps(State(), FinishStep);
      ghost var k := Stopped(State(), Gone);
      halted := Sleep(Gone, interrupts);
      GoneForGood(k, interrupts, 0, k.current);
    }

    /**
     * One pass of the loop in P. When it sleeps it returns in another thread, or in this one if that is woken first.
     */
    method TestInP(i: nat, interrupts: seq<seq<nat>>) returns (halted: bool)
      requires Inv(State()) && status[current] == Running && i < |queues| && Known(interrupts, |queues|)
      modifies this
      ensures Inv(State()) && Inv(Tested(old(State()), i))
      ensures old(values[i]) > 0 ==> !halted && State() == Tested(old(State()), i)
      ensures old(values[i]) == 0 ==> Slept(Tested(old(State()), i), interrupts, halted, State())
      ensures old(values[i]) == 0 ==>
                var queues := old(queues)[i := old(queues[i]) + [old(current)]];
                SleepLaw(old(ready), queues, old(values), interrupts, halted, State())
    {
      halted := false;
      assert PlacedAt(State(), current);
      TryPKeeps(State(), i);
      if values[i] == 0 {
        queues := queues[i := queues[i] + [current]];
        halted := Sleep(OnQueue(i), interrupts);
      } else {
        values := values[i := values[i] - 1];
      }
    }

    /**
     * A pass of the loop in P that finds no unit, and Finish, end in Sleep with the current thread blocked at `there`.
     * When no interrupt is left to wait for the machine halts.
     */
    method Sleep(ghost there: Place, interrupts: seq<seq<nat>>) returns (halted: bool)
      requires State().Shaped() && Inv(Stopped(State(), there)) && StatusAt(there) == Blocked
               && Known(interrupts, |queues|)
      modifies this
      ensures Inv(State()) && Slept(Stopped(old(State()), there), interrupts, halted, State())
      ensures SleepLaw(old(ready), old(queues), old(values), interrupts, halted, State())
      ensures halted || status[current] == Running
    {
      status, place := status[current := Blocked], place[current := there];
      ghost var k := State();
      AwaitReady(interrupts);
      halted := ready == [];
      if !halted {
        DispatchKeeps(State());
        assert PlacedAt(Resumed(State()), ready[0]);
        var next := FindNextToRun();
        Run(next.value);
      }
      SleptLaw(k, interrupts, halted, State());
    }

    /** The loop of Sleep. */
    method AwaitReady(interrupts: seq<seq<nat>>)
      requires Inv(State()) && Known(interrupts, |queues|)
      modifies this
      ensures State() == Awaited(old(State()), interrupts)
    {
      var i := 0;
      while ready == [] && i < |interrupts|
        invariant i <= |interrupts| && Inv(State()) && Known(interrupts, |queues|)
        invariant Awaited(State(), interrupts, i) == Awaited(old(State()), interrupts)
      {
        Idle(interrupts[i]);
        i := i + 1;
      }
    }

    /** Interrupt handlers run while the CPU is idle. */
    method Idle(sems: seq<nat>)
      requires Inv(State()) && forall b | 0 <= b < |sems| :: sems[b] < |queues|
      modifies this
      ensures Inv(State()) && State() == SignalledFirst(old(State()), sems, |sems|)
    {
      for b := 0 to |sems|
        invariant State() == SignalledFirst(old(State()), sems, b)
      {
        V(sems[b]);
      }
    }
  }
}
