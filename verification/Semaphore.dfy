/**
 * Semaphores of nachos64/code/threads/synch.cc. Code between two changes of the interrupt level runs without
 * a context switch, so one pass of the test in P and the whole of V are single steps.
 */
module Semaphores {
  /** Threads are numbered. */
  type Tid = nat

  /** `woken` are the threads V has taken off the queue that have not yet tested the value again. */
  datatype Sem = Sem(value: nat, queue: seq<Tid>, woken: set<Tid>) {
    /** One pass of P's loop by `t`: take a unit, or go to sleep at the end of the queue. */
    function Try(t: Tid): Sem {
      if value == 0 then Sem(0, queue + [t], woken - {t}) else Sem(value - 1, queue, woken - {t})
    }

    function V(): Sem {
      if queue == [] then this.(value := value + 1) else Sem(value + 1, queue[1..], woken + {queue[0]})
    }

    /** Nobody sleeps twice or is both asleep and awake, and units never sit unused while all waiters sleep. */
    predicate Inv() {
      && (forall i, j | 0 <= i < j < |queue| :: queue[i] != queue[j])
      && (forall t | t in woken :: t !in queue)
      && (queue != [] ==> value <= |woken|)
    }
  }

  lemma TryKeeps(s: Sem, t: Tid)
    requires s.Inv() && t !in s.queue
    ensures s.Try(t).Inv()
    ensures s.value > 0 ==> s.Try(t).queue == s.queue && t !in s.Try(t).queue
    ensures s.value == 0 ==> t in s.Try(t).queue
  {
    if t in s.woken {
      assert |s.woken - {t}| == |s.woken| - 1;
    } else {
      assert s.woken - {t} == s.woken;
    }
  }

  lemma VKeeps(s: Sem)
    requires s.Inv()
    ensures s.V().Inv()
    ensures forall t :: t in s.V().queue || t in s.V().woken <==> t in s.queue || t in s.woken
  {
    if s.queue != [] {
      assert s.queue == [s.queue[0]] + s.queue[1..];
      assert s.queue[0] !in s.woken;
      assert |s.woken + {s.queue[0]}| == |s.woken| + 1;
      assert forall i | 0 <= i < |s.queue[1..]| :: s.queue[1..][i] == s.queue[i + 1];
    }
  }
}

/** Any number of threads in any number of P calls, and V calls from threads or interrupt handlers. */
module SemaphoreRuns {
  import opened Semaphores

  datatype State = State(sem: Sem, inside: set<Tid>, ps: nat, vs: nat)

  datatype Step = Enter(t: Tid) | Test(t: Tid) | Post

  predicate Initial(s: State, initial: nat) {
    s == State(Sem(initial, [], {}), {}, 0, 0)
  }

  /** `inside` are the threads that have called P and not returned from it; `ps` and `vs` count completed calls. */
  predicate Next(s: State, step: Step, s': State) {
    match step
    case Enter(t) => t !in s.inside && s' == s.(inside := s.inside + {t})
    case Test(t) =>
      && t in s.inside && t !in s.sem.queue
      && s' == if s.sem.value > 0 then State(s.sem.Try(t), s.inside - {t}, s.ps + 1, s.vs) else s.(sem := s.sem.Try(t))
    case Post => s' == s.(sem := s.sem.V(), vs := s.vs + 1)
  }

  ghost predicate Safe(s: State, initial: nat) {
    && s.sem.Inv()
    && s.sem.value + s.ps == initial + s.vs
    && (forall t | t in s.sem.queue || t in s.sem.woken :: t in s.inside)
  }

  lemma NextKeeps(s: State, step: Step, s': State, initial: nat)
    requires Safe(s, initial) && Next(s, step, s')
    ensures Safe(s', initial)
  {
    match step
    case Enter(t) =>
    case Test(t) =>
      TryKeeps(s.sem, t);
    case Post =>
      VKeeps(s.sem);
  }

  predicate Run(states: seq<State>, steps: seq<Step>, initial: nat) {
    && |states| == |steps| + 1 && Initial(states[0], initial)
    && forall i | 0 <= i < |steps| :: Next(states[i], steps[i], states[i + 1])
  }

  /**
   * In every state of every run: value + completed P = initial + completed V; and if threads are asleep,
   * at least `value` others are awake on their way to test it, so no V is lost on sleepers.
   */
  lemma {:induction false} RunsAreSafe(states: seq<State>, steps: seq<Step>, initial: nat, i: nat)
    requires Run(states, steps, initial) && i < |states|
    ensures states[i].sem.value + states[i].ps == initial + states[i].vs
    ensures states[i].sem.queue != [] ==> states[i].sem.value <= |states[i].sem.woken|
    ensures Safe(states[i], initial)
  {
    if i > 0 {
      RunsAreSafe(states, steps, initial, i - 1);
      NextKeeps(states[i - 1], steps[i - 1], states[i], initial);
    }
  }

  /** Whenever all threads in P are asleep, the value is zero: nobody sleeps on an available unit. */
  lemma AsleepMeansZero(states: seq<State>, steps: seq<Step>, initial: nat, i: nat)
    requires Run(states, steps, initial) && i < |states|
    requires states[i].inside != {} && forall t | t in states[i].inside :: t in states[i].sem.queue
    ensures states[i].sem.value == 0
  {
    RunsAreSafe(states, steps, initial, i);
    var sem := states[i].sem;
    assert forall w :: w !in sem.woken;
    assert sem.woken == {};
  }

  /**
   * A V does not hand its unit to the thread that it wakes: here thread 0 sleeps, is woken, and sleeps again, because
   * thread 1 came in between and took the unit.
   */
  lemma WokenSleepsAgain() returns (states: seq<State>, steps: seq<Step>)
    ensures Run(states, steps, 0) && |steps| == 6 && steps[2] == Post && steps[5] == Test(0)
    ensures states[2].sem.queue == [0] && states[3].sem == Sem(1, [], {0}) && states[6].sem == Sem(0, [0], {})
  {
    steps := [Enter(0), Test(0), Post, Enter(1), Test(1), Test(0)];
    states := [
      State(Sem(0, [], {}), {}, 0, 0),
      State(Sem(0, [], {}), {0}, 0, 0),
      State(Sem(0, [0], {}), {0}, 0, 0),
      State(Sem(1, [], {0}), {0}, 0, 1),
      State(Sem(1, [], {0}), {0, 1}, 0, 1),
      State(Sem(0, [], {0}), {0}, 1, 1),
      State(Sem(0, [0], {}), {0}, 1, 1)];
    assert [0][1..] == [];
    forall i | 0 <= i < 6 ensures Next(states[i], steps[i], states[i + 1]) {
      assert i == 0 || i == 1 || i == 2 || i == 3 || i == 4 || i == 5;
    }
  }

  /** How many of the first `n` steps are calls of V. */
  function Posts(steps: seq<Step>, n: nat): nat
    requires n <= |steps|
  {
    if n == 0 then 0 else Posts(steps, n - 1) + if steps[n - 1] == Post then 1 else 0
  }

  /** How many of the first `n` steps are passes of P's loop that found a unit. */
  function Passed(states: seq<State>, steps: seq<Step>, n: nat): nat
    requires n <= |steps| < |states|
  {
    if n == 0 then 0
    else Passed(states, steps, n - 1) + if steps[n - 1].Test? && states[n - 1].sem.value > 0 then 1 else 0
  }

  /**
   * The value is what the calls made of it: the initial units and those of all V calls, less those that P has taken.
   */
  lemma {:induction false} UnitsAreCounted(states: seq<State>, steps: seq<Step>, initial: nat, n: nat)
    requires Run(states, steps, initial) && n < |states|
    ensures states[n].sem.value == initial + Posts(steps, n) - Passed(states, steps, n)
    ensures states[n].vs == Posts(steps, n) && states[n].ps == Passed(states, steps, n)
  {
    if n > 0 {
      UnitsAreCounted(states, steps, initial, n - 1);
      assert Next(states[n - 1], steps[n - 1], states[n]);
    }
  }
}
