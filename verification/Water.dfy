/**
 * The water exercise of nachos64/code/threads/threadtest.cc: hydrogen and oxygen threads under three semaphores used as
 * locks.
 */
module Water {
  import opened Options
  import opened Semaphores

  /** `AtX` is inside semX.P(); `Working` holds all three; `GiveX` is about to call semX.V(). */
  datatype Place = Ready | AtH | AtO | AtA | Working | GiveH | GiveO | GiveA | Finished

  /** A semaphore of initial value one, and the thread that took its unit last and has not given it back. */
  datatype Mutex = Mutex(sem: Sem, owner: Option<Tid>) {
    function Try(t: Tid): Mutex {
      Mutex(sem.Try(t), if sem.value > 0 then Some(t) else owner)
    }

    function Give(): Mutex {
      Mutex(sem.V(), None)
    }
  }

  /** `isH` says which threads are hydrogen. The last two count the threads of each kind that have done their work. */
  datatype State = State(
    isH: seq<bool>, place: seq<Place>, h: Mutex, o: Mutex, a: Mutex,
    hAtoms: nat, oAtoms: nat, molecules: nat, hydrogens: nat, oxygens: nat)

  /** The bodies of H and O between the P and the V calls. */
  function Work(s: State, t: Tid): State
    requires t < |s.isH| && t < |s.place|
  {
    var s' := s.(place := s.place[t := GiveH]);
    if s.isH[t] then
      if s.hAtoms > 0 && s.oAtoms > 0
      then s'.(hAtoms := s.hAtoms - 1, oAtoms := s.oAtoms - 1, molecules := s.molecules + 1,
        hydrogens := s.hydrogens + 1)
      else s'.(hAtoms := s.hAtoms + 1, hydrogens := s.hydrogens + 1)
    else
      if s.hAtoms > 1
      then s'.(hAtoms := s.hAtoms - 2, molecules := s.molecules + 1, oxygens := s.oxygens + 1)
      else s'.(oAtoms := s.oAtoms + 1, oxygens := s.oxygens + 1)
  }

  /** Thread `t` can take a step: it is not asleep in a queue and not through. */
  predicate CanStep(s: State, t: Tid)
    requires t < |s.place|
  {
    match s.place[t]
    case AtH => t !in s.h.sem.queue
    case AtO => t !in s.o.sem.queue
    case AtA => t !in s.a.sem.queue
    case Finished => false
    case _ => true
  }

  function Step(s: State, t: Tid): State
    requires t < |s.place| == |s.isH|
  {
    match s.place[t]
    case Ready => s.(place := s.place[t := AtH])
    case AtH => s.(h := s.h.Try(t), place := if s.h.sem.value > 0 then s.place[t := AtO] else s.place)
    case AtO => s.(o := s.o.Try(t), place := if s.o.sem.value > 0 then s.place[t := AtA] else s.place)
    case AtA => s.(a := s.a.Try(t), place := if s.a.sem.value > 0 then s.place[t := Working] else s.place)
    case Working => Work(s, t)
    case GiveH => s.(h := s.h.Give(), place := s.place[t := GiveO])
    case GiveO => s.(o := s.o.Give(), place := s.place[t := GiveA])
    case GiveA => s.(a := s.a.Give(), place := s.place[t := Finished])
    case Finished => s
  }

  function Fresh(isH: seq<bool>): State {
    var free := Mutex(Sem(1, [], {}), None);
    State(isH, seq(|isH|, t => Ready), free, free, free, 0, 0, 0, 0, 0)
  }

  // The invariant

  predicate HoldsH(p: Place) { p in {AtO, AtA, Working, GiveH} }
  predicate HoldsO(p: Place) { p in {AtA, Working, GiveH, GiveO} }
  predicate HoldsA(p: Place) { p in {Working, GiveH, GiveO, GiveA} }

  /** A mutex's unit is with exactly the thread whose place says so, and only threads at its P sleep on it. */
  ghost predicate MutexInv(m: Mutex, place: seq<Place>, at: Place, holds: Place -> bool) {
    && m.sem.Inv() && m.sem.value == (if m.owner.Some? then 0 else 1)
    && (m.owner.Some? ==> m.owner.value < |place|)
    && (forall t | 0 <= t < |place| :: holds(place[t]) <==> m.owner == Some(t))
    && (forall t | t in m.sem.queue || t in m.sem.woken :: t < |place| && place[t] == at)
  }

  predicate Balanced(s: State) {
    && s.hydrogens == s.hAtoms + 2 * s.molecules && s.oxygens == s.oAtoms + s.molecules
    && (s.hAtoms <= 1 || s.oAtoms == 0)
  }

  ghost predicate Safe(s: State) {
    && |s.place| == |s.isH| && Balanced(s)
    && MutexInv(s.h, s.place, AtH, HoldsH) && MutexInv(s.o, s.place, AtO, HoldsO) && MutexInv(s.a, s.place, AtA, HoldsA)
  }

  lemma TryKeepsMutex(m: Mutex, place: seq<Place>, at: Place, holds: Place -> bool, t: Tid, next: Place)
    requires MutexInv(m, place, at, holds) && t < |place| && place[t] == at && t !in m.sem.queue
    requires !holds(at) && holds(next)
    ensures MutexInv(m.Try(t), if m.sem.value > 0 then place[t := next] else place, at, holds)
  {
    TryKeeps(m.sem, t);
  }

  lemma GiveKeepsMutex(m: Mutex, place: seq<Place>, at: Place, holds: Place -> bool, t: Tid, next: Place)
    requires MutexInv(m, place, at, holds) && t < |place| && holds(place[t]) && !holds(next) && place[t] != at
             && next != at
    ensures MutexInv(m.Give(), place[t := next], at, holds)
  {
    VKeeps(m.sem);
  }

  lemma MoveKeepsMutex(m: Mutex, place: seq<Place>, at: Place, holds: Place -> bool, t: Tid, next: Place)
    requires MutexInv(m, place, at, holds) && t < |place| && (holds(next) <==> holds(place[t])) && place[t] != at
    ensures MutexInv(m, place[t := next], at, holds)
  {
  }

  lemma StepKeepsH(s: State, t: Tid)
    requires t < |s.place| == |s.isH| && MutexInv(s.h, s.place, AtH, HoldsH) && CanStep(s, t)
    ensures MutexInv(Step(s, t).h, Step(s, t).place, AtH, HoldsH)
  {
    if s.place[t] == AtH {
      TryKeepsMutex(s.h, s.place, AtH, HoldsH, t, AtO);
    } else if s.place[t] == GiveH {
      GiveKeepsMutex(s.h, s.place, AtH, HoldsH, t, GiveO);
    } else {
      MoveKeepsMutex(s.h, s.place, AtH, HoldsH, t, Step(s, t).place[t]);
    }
  }

  lemma StepKeepsO(s: State, t: Tid)
    requires t < |s.place| == |s.isH| && MutexInv(s.o, s.place, AtO, HoldsO) && CanStep(s, t)
    ensures MutexInv(Step(s, t).o, Step(s, t).place, AtO, HoldsO)
  {
    if s.place[t] == AtO {
      TryKeepsMutex(s.o, s.place, AtO, HoldsO, t, AtA);
    } else if s.place[t] == GiveO {
      GiveKeepsMutex(s.o, s.place, AtO, HoldsO, t, GiveA);
    } else {
      MoveKeepsMutex(s.o, s.place, AtO, HoldsO, t, Step(s, t).place[t]);
    }
  }

  lemma StepKeepsA(s: State, t: Tid)
    requires t < |s.place| == |s.isH| && MutexInv(s.a, s.place, AtA, HoldsA) && CanStep(s, t)
    ensures MutexInv(Step(s, t).a, Step(s, t).place, AtA, HoldsA)
  {
    if s.place[t] == AtA {
      TryKeepsMutex(s.a, s.place, AtA, HoldsA, t, Working);
    } else if s.place[t] == GiveA {
      GiveKeepsMutex(s.a, s.place, AtA, HoldsA, t, Finished);
    } else {
      MoveKeepsMutex(s.a, s.place, AtA, HoldsA, t, Step(s, t).place[t]);
    }
  }

  lemma StepBalances(s: State, t: Tid)
    requires t < |s.place| == |s.isH| && Balanced(s)
    ensures Balanced(Step(s, t)) && |Step(s, t).place| == |Step(s, t).isH|
  {
  }

  lemma StepKeeps(s: State, t: Tid)
    requires Safe(s) && t < |s.place| && CanStep(s, t)
    ensures Safe(Step(s, t))
  {
    StepKeepsH(s, t);
    StepKeepsO(s, t);
    StepKeepsA(s, t);
    StepBalances(s, t);
    assert Safe(Step(s, t));
  }

  predicate Run(states: seq<State>, who: seq<Tid>, isH: seq<bool>) {
    && |states| == |who| + 1 && states[0] == Fresh(isH)
    && forall i | 0 <= i < |who| ::
         who[i] < |states[i].place| == |states[i].isH| && CanStep(states[i], who[i])
           && states[i + 1] == Step(states[i], who[i])
  }

  lemma {:induction false} RunsAreSafe(states: seq<State>, who: seq<Tid>, isH: seq<bool>, i: nat)
    requires Run(states, who, isH) && i < |states|
    ensures Safe(states[i])
  {
    if i > 0 {
      RunsAreSafe(states, who, isH, i - 1);
      StepKeeps(states[i - 1], who[i - 1]);
    }
  }

  function Min(x: int, y: int): int {
    if x < y then x else y
  }

  /** As many molecules as the atoms that have come allow, the rest still counted, in every order of arrival. */
  lemma AllTheWater(states: seq<State>, who: seq<Tid>, isH: seq<bool>, i: nat)
    requires Run(states, who, isH) && i < |states|
    ensures var s := states[i];
            && s.molecules == Min(s.hydrogens / 2, s.oxygens)
            && s.hydrogens == s.hAtoms + 2 * s.molecules && s.oxygens == s.oAtoms + s.molecules
  {
    RunsAreSafe(states, who, isH, i);
    Molecules(states[i]);
  }

  lemma Molecules(s: State)
    requires Balanced(s)
    ensures s.molecules == Min(s.hydrogens / 2, s.oxygens)
  {
    assert s.hydrogens / 2 == s.hAtoms / 2 + s.molecules;
  }

  // The counters and the threads that there are

  predicate Past(p: Place) { p in {GiveH, GiveO, GiveA, Finished} }

  /** How many of the first `n` threads are of that kind and have done their work. */
  function Done(isH: seq<bool>, place: seq<Place>, kind: bool, n: nat): nat
    requires n <= |isH| == |place|
  {
    if n == 0 then 0
    else Done(isH, place, kind, n - 1) + if isH[n - 1] == kind && Past(place[n - 1]) then 1 else 0
  }

  /** How many of the first `n` threads are of that kind. */
  function Number(isH: seq<bool>, kind: bool, n: nat): nat
    requires n <= |isH|
  {
    if n == 0 then 0 else Number(isH, kind, n - 1) + if isH[n - 1] == kind then 1 else 0
  }

  lemma {:induction false} DoneMove(isH: seq<bool>, place: seq<Place>, kind: bool, n: nat, t: Tid, p: Place)
    requires n <= |isH| == |place| && t < |place| && (Past(place[t]) ==> Past(p))
    ensures Done(isH, place[t := p], kind, n)
            == Done(isH, place, kind, n) + if t < n && isH[t] == kind && Past(p) && !Past(place[t]) then 1 else 0
  {
    if n > 0 {
      DoneMove(isH, place, kind, n - 1, t, p);
    }
  }

  lemma {:induction false} DoneNone(isH: seq<bool>, place: seq<Place>, kind: bool, n: nat)
    requires n <= |isH| == |place| && forall t | 0 <= t < n :: place[t] == Ready
    ensures Done(isH, place, kind, n) == 0
  {
    if n > 0 {
      DoneNone(isH, place, kind, n - 1);
    }
  }

  lemma {:induction false} DoneAll(isH: seq<bool>, place: seq<Place>, kind: bool, n: nat)
    requires n <= |isH| == |place| && forall t | 0 <= t < n :: place[t] == Finished
    ensures Done(isH, place, kind, n) == Number(isH, kind, n)
  {
    if n > 0 {
      DoneAll(isH, place, kind, n - 1);
    }
  }

  predicate Tallied(s: State) {
    && |s.place| == |s.isH|
    && s.hydrogens == Done(s.isH, s.place, true, |s.isH|) && s.oxygens == Done(s.isH, s.place, false, |s.isH|)
  }

  lemma StepTallies(s: State, t: Tid)
    requires Tallied(s) && t < |s.place|
    ensures Tallied(Step(s, t)) && Step(s, t).isH == s.isH
  {
    var s' := Step(s, t);
    assert s'.place == s.place[t := s'.place[t]];
    DoneMove(s.isH, s.place, true, |s.isH|, t, s'.place[t]);
    DoneMove(s.isH, s.place, false, |s.isH|, t, s'.place[t]);
  }

  /** In every state the counters are the numbers of hydrogen and of oxygen threads that have done their work. */
  lemma {:induction false} CountersAreThreads(states: seq<State>, who: seq<Tid>, isH: seq<bool>, i: nat)
    requires Run(states, who, isH) && i < |states|
    ensures Tallied(states[i]) && states[i].isH == isH
  {
    if i == 0 {
      DoneNone(isH, states[0].place, true, |isH|);
      DoneNone(isH, states[0].place, false, |isH|);
    } else {
      CountersAreThreads(states, who, isH, i - 1);
      StepTallies(states[i - 1], who[i - 1]);
    }
  }

  /**
   * When all threads are through, the molecules are what the threads that there were allow, in every order of arrival.
   */
  lemma WaterOfThreads(states: seq<State>, who: seq<Tid>, isH: seq<bool>, i: nat)
    requires Run(states, who, isH) && i < |states| && forall t | 0 <= t < |states[i].place| ::
               states[i].place[t] == Finished
    ensures states[i].molecules == Min(Number(isH, true, |isH|) / 2, Number(isH, false, |isH|))
  {
    AllTheWater(states, who, isH, i);
    CountersAreThreads(states, who, isH, i);
    DoneAll(isH, states[i].place, true, |isH|);
    DoneAll(isH, states[i].place, false, |isH|);
  }

  /** No two threads are in the middle at once. */
  lemma OneAtWork(states: seq<State>, who: seq<Tid>, isH: seq<bool>, i: nat, t: Tid, u: Tid)
    requires Run(states, who, isH) && i < |states| && t < |states[i].place| && u < |states[i].place|
    requires states[i].place[t] == Working && states[i].place[u] == Working
    ensures t == u
  {
    RunsAreSafe(states, who, isH, i);
    assert HoldsA(states[i].place[t]) && HoldsA(states[i].place[u]);
  }

  /** Someone at a mutex's P can go on, or someone else holds it. */
  lemma AwakeOrHeld(m: Mutex, place: seq<Place>, at: Place, holds: Place -> bool, t: Tid) returns (u: Tid)
    requires MutexInv(m, place, at, holds) && t < |place| && place[t] == at
    ensures u < |place| && ((place[u] == at && u !in m.sem.queue) || holds(place[u]))
  {
    if t !in m.sem.queue {
      u := t;
    } else if m.owner.Some? {
      u := m.owner.value;
    } else {
      assert m.sem.woken != {};
      u :| u in m.sem.woken;
    }
  }

  /** No deadlock: while any thread is between its first P and its last V, some such thread can take a step. */
  lemma NoDeadlock(states: seq<State>, who: seq<Tid>, isH: seq<bool>, i: nat, t: Tid) returns (u: Tid)
    requires Run(states, who, isH) && i < |states| && t < |states[i].place| && states[i].place[t] !in {Ready, Finished}
    ensures u < |states[i].place| && states[i].place[u] !in {Ready, Finished} && CanStep(states[i], u)
  {
    RunsAreSafe(states, who, isH, i);
    var s := states[i];
    u := t;
    if s.place[u] == AtH {
      u := AwakeOrHeld(s.h, s.place, AtH, HoldsH, u);
    }
    if s.place[u] == AtO {
      u := AwakeOrHeld(s.o, s.place, AtO, HoldsO, u);
    }
    if s.place[u] == AtA {
      u := AwakeOrHeld(s.a, s.place, AtA, HoldsA, u);
    }
  }
}
