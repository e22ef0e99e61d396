/**
 * The synchronous disk of nachos64/code/filesys/synchdisk.cc over the device of nachos64/code/machine/disk.cc:
 * any number of threads, a lock, a semaphore and the completion interrupt make one atomic array of sectors.
 */
module SynchDisks {
  import opened Semaphores
  import Devices

  datatype Op<S> = Read(sector: nat) | Write(sector: nat, data: S)

  /** A request as the device served it, with the caller's buffer as it then is. */
  datatype Entry<S> = Entry(op: Op<S>, buffer: S)

  /** A thread's call: `since` is the length of the log when it was made; once served, `at` is its place in the log. */
  datatype Request<S> = Nothing | Asked(op: Op<S>, since: nat) | Served(op: Op<S>, since: nat, at: nat, buffer: S)

  /** `log` lists the requests in the order in which the device served them. */
  datatype State<S> = State(dev: Devices.Device, active: bool, sectors: seq<S>, request: seq<Request<S>>,
      log: seq<Entry<S>>)

  datatype Step<S> = Call(t: Tid, op: Op<S>) | Issue(t: Tid) | Interrupt | Other(step: Devices.Step)

  function Apply<S>(sectors: seq<S>, op: Op<S>): (r: seq<S>)
    ensures |r| == |sectors|
  {
    if op.Write? && op.sector < |sectors| then sectors[op.sector := op.data] else sectors
  }

  function Buffer<S>(sectors: seq<S>, op: Op<S>): S
    requires op.sector < |sectors|
  {
    if op.Read? then sectors[op.sector] else op.data
  }

  /** ReadRequest and WriteRequest move the data at once; the interrupt clears `active` and ends the caller's wait. */
  ghost predicate Next<S>(s: State<S>, step: Step<S>, s': State<S>) {
    && |s.request| == |s.dev.stage|
    && match step
       case Call(t, op) =>
         && op.sector < |s.sectors| && Devices.Next(s.dev, Devices.Call(t), s'.dev) && t < |s.request|
         && s' == s.(dev := s'.dev, request := s.request[t := Asked(op, |s.log|)])
       case Issue(t) =>
         && Devices.Next(s.dev, Devices.Issue(t), s'.dev) && t < |s.request| && s.request[t].Asked?
            && s.request[t].op.sector < |s.sectors|
         && var (op, since) := (s.request[t].op, s.request[t].since);
            var entry := Entry(op, Buffer(s.sectors, op));
            s' == State(s'.dev, true, Apply(s.sectors, op), s.request[t := Served(op, since, |s.log|, entry.buffer)],
              s.log + [entry])
       case Interrupt => Devices.Next(s.dev, Devices.Interrupt, s'.dev) && s' == s.(dev := s'.dev, active := false)
       case Other(d) =>
         (d.TryLock? || d.SetHolder? || d.TryDone? || d.Return?) && Devices.Next(s.dev, d, s'.dev)
         && s' == s.(dev := s'.dev)
  }

  function Fresh<S>(threads: nat, sectors: seq<S>): State<S> {
    State(Devices.Fresh(threads), false, sectors, seq(threads, t => Nothing), [])
  }

  /** The atomic array: what the sectors hold after the logged requests, served one by one. */
  function Replay<S>(sectors: seq<S>, log: seq<Entry<S>>): (r: seq<S>)
    ensures |r| == |sectors|
    decreases |log|
  {
    if log == [] then sectors else Apply(Replay(sectors, log[..|log| - 1]), log[|log| - 1].op)
  }

  // The invariant

  ghost predicate RequestsInv<S>(s: State<S>) {
    && |s.request| == |s.dev.stage|
    && forall t | 0 <= t < |s.request| ::
         && (s.dev.stage[t] == Devices.Calling ==>
              s.request[t].Asked? && s.request[t].since <= |s.log| && s.request[t].op.sector < |s.sectors|)
         && (s.dev.stage[t] in {Devices.Waiting, Devices.Leaving} ==>
               s.request[t].Served? && s.request[t].since <= s.request[t].at < |s.log|
               && s.log[s.request[t].at] == Entry(s.request[t].op, s.request[t].buffer))
  }

  ghost predicate LogInv<S>(s: State<S>, initial: seq<S>) {
    && s.sectors == Replay(initial, s.log)
    && forall k | 0 <= k < |s.log| && s.log[k].op.Read? ::
         s.log[k].op.sector < |initial| && s.log[k].buffer == Replay(initial, s.log[..k])[s.log[k].op.sector]
  }

  ghost predicate Safe<S>(s: State<S>, initial: seq<S>) {
    s.dev.Inv() && (s.active <==> s.dev.scheduled == 1) && RequestsInv(s) && LogInv(s, initial)
  }

  lemma IssueKeeps<S>(s: State<S>, t: Tid, s': State<S>, initial: seq<S>)
    requires RequestsInv(s) && LogInv(s, initial) && Next(s, Issue(t), s')
    ensures RequestsInv(s') && LogInv(s', initial)
  {
    assert s'.log[..|s.log|] == s.log;
    forall k | 0 <= k < |s'.log| && s'.log[k].op.Read?
      ensures s'.log[k].op.sector < |initial| && s'.log[k].buffer == Replay(initial, s'.log[..k])[s'.log[k].op.sector]
    {
      assert s'.log[..k] == s.log[..k];
      assert s.log[..|s.log|] == s.log;
    }
  }

  lemma DeviceKeeps<S>(s: State<S>, step: Step<S>, s': State<S>)
    requires s.dev.Inv() && Next(s, step, s')
    ensures s'.dev.Inv()
  {
    match step
    case Call(t, op) => Devices.NextKeeps(s.dev, Devices.Call(t), s'.dev);
    case Issue(t) => Devices.NextKeeps(s.dev, Devices.Issue(t), s'.dev);
    case Interrupt => Devices.NextKeeps(s.dev, Devices.Interrupt, s'.dev);
    case Other(d) => Devices.NextKeeps(s.dev, d, s'.dev);
  }

  lemma RequestsKeep<S>(s: State<S>, step: Step<S>, s': State<S>, initial: seq<S>)
    requires s.dev.Inv() && (s.active <==> s.dev.scheduled == 1) && RequestsInv(s) && LogInv(s, initial)
             && Next(s, step, s')
    ensures (s'.active <==> s'.dev.scheduled == 1) && RequestsInv(s') && LogInv(s', initial)
  {
    match step
    case Call(t, op) =>
    case Issue(t) =>
      Devices.IssueKeeps(s.dev, t, s'.dev);
      IssueKeeps(s, t, s', initial);
    case Interrupt =>
    case Other(d) => OtherKeeps(s, d, s');
  }

  lemma NextKeeps<S>(s: State<S>, step: Step<S>, s': State<S>, initial: seq<S>)
    requires Safe(s, initial) && Next(s, step, s')
    ensures Safe(s', initial)
  {
    DeviceKeeps(s, step, s');
    RequestsKeep(s, step, s', initial);
  }

  lemma OtherKeeps<S>(s: State<S>, d: Devices.Step, s': State<S>)
    requires RequestsInv(s) && Next(s, Other(d), s')
    ensures RequestsInv(s') && s'.dev.scheduled == s.dev.scheduled
  {
  }

  ghost predicate Run<S>(states: seq<State<S>>, steps: seq<Step<S>>, threads: nat, initial: seq<S>) {
    && |states| == |steps| + 1 && states[0] == Fresh(threads, initial)
    && forall i | 0 <= i < |steps| :: Next(states[i], steps[i], states[i + 1])
  }

  lemma {:induction false} RunsAreSafe<S>(states: seq<State<S>>, steps: seq<Step<S>>, threads: nat, initial: seq<S>,
      i: nat)
    requires Run(states, steps, threads, initial) && i < |states|
    ensures Safe(states[i], initial)
  {
    if i == 0 {
      Devices.FreshKeeps(threads);
    } else {
      RunsAreSafe(states, steps, threads, initial, i - 1);
      NextKeeps(states[i - 1], steps[i - 1], states[i], initial);
    }
  }

  /** No interleaving trips the device's ASSERT: whenever a thread issues a request, the disk is idle. */
  lemma NeverTwoRequests<S>(states: seq<State<S>>, steps: seq<Step<S>>, threads: nat, initial: seq<S>, i: nat)
    requires Run(states, steps, threads, initial) && i < |steps| && steps[i].Issue?
    ensures !states[i].active
  {
    RunsAreSafe(states, steps, threads, initial, i);
    Devices.IssueKeeps(states[i].dev, steps[i].t, states[i + 1].dev);
  }

  /**
   * ReadSector refines an atomic read: a call returns only after the completion interrupt of its request, which sits in
   * the log between the call and the return, and a read has brought back what the sector held at that point of the log.
   */
  lemma CallsAreAtomic<S>(states: seq<State<S>>, steps: seq<Step<S>>, threads: nat, initial: seq<S>, i: nat, t: Tid)
    requires Run(states, steps, threads, initial) && i < |steps| && steps[i] == Other(Devices.Return(t))
    ensures !states[i].active
    ensures t < |states[i].request| && states[i].sectors == Replay(initial, states[i].log)
    ensures var (s, r) := (states[i], states[i].request[t]);
            && r.Served? && r.since <= r.at < |s.log| && s.log[r.at] == Entry(r.op, r.buffer)
            && (r.op.Read? ==> r.op.sector < |initial| && r.buffer == Replay(initial, s.log[..r.at])[r.op.sector])
  {
    RunsAreSafe(states, steps, threads, initial, i);
    assert Next(states[i], steps[i], states[i + 1]);
  }

  /** The log only grows, so a request's place in it is the same for ever. */
  lemma {:induction false} LogGrows<S>(states: seq<State<S>>, steps: seq<Step<S>>, threads: nat, initial: seq<S>,
      i: nat, j: nat)
    requires Run(states, steps, threads, initial) && i <= j < |states|
    ensures states[i].log <= states[j].log
  {
    if i < j {
      LogGrows(states, steps, threads, initial, i, j - 1);
      assert Next(states[j - 1], steps[j - 1], states[j]);
    }
  }

  /** What a sector holds is what the last write to it in the log stored, or its first contents if there is none. */
  lemma {:induction false} ReplayIsLatest<S>(initial: seq<S>, log: seq<Entry<S>>, sector: nat, j: int)
    requires sector < |initial| && -1 <= j < |log|
    requires j >= 0 ==> log[j].op.Write? && log[j].op.sector == sector
    requires forall k | j < k < |log| :: !(log[k].op.Write? && log[k].op.sector == sector)
    ensures Replay(initial, log)[sector] == if j >= 0 then log[j].op.data else initial[sector]
    decreases |log|
  {
    if log != [] && j < |log| - 1 {
      ReplayIsLatest(initial, log[..|log| - 1], sector, j);
    }
  }

  /** So a ReadSector returns what the latest WriteSector before it, in the order of the log, stored in that sector. */
  lemma ReadReturnsLatestWrite<S>(states: seq<State<S>>, steps: seq<Step<S>>, threads: nat, initial: seq<S>, i: nat,
      t: Tid, j: int)
    requires Run(states, steps, threads, initial) && i < |steps| && steps[i] == Other(Devices.Return(t))
    requires t < |states[i].request| && states[i].request[t].Served? && states[i].request[t].op.Read?
    requires var (log, r) := (states[i].log, states[i].request[t]);
             && -1 <= j < r.at <= |log| && (j >= 0 ==> log[j].op.Write? && log[j].op.sector == r.op.sector)
             && forall k | j < k < r.at :: !(log[k].op.Write? && log[k].op.sector == r.op.sector)
    ensures var r := states[i].request[t];
            r.op.sector < |initial| && r.buffer == if j >= 0 then states[i].log[j].op.data else initial[r.op.sector]
  {
    CallsAreAtomic(states, steps, threads, initial, i, t);
    var r := states[i].request[t];
    ReplayIsLatest(initial, states[i].log[..r.at], r.op.sector, j);
  }

  // The requests and the calls of the run

  /** The latest call of thread `t` in the first `n` steps, or -1. */
  function CallOf<S>(steps: seq<Step<S>>, t: Tid, n: nat): (j: int)
    requires n <= |steps|
    ensures -1 <= j < n && (j >= 0 ==> steps[j].Call? && steps[j].t == t)
    ensures forall k | j < k < n :: !(steps[k].Call? && steps[k].t == t)
  {
    if n == 0 then -1
    else if steps[n - 1].Call? && steps[n - 1].t == t then n - 1
    else CallOf(steps, t, n - 1)
  }

  /** `r` is the request of the call that thread `t` made at step `j`. */
  predicate MadeAt<S(==)>(r: Request<S>, states: seq<State<S>>, steps: seq<Step<S>>, j: int) {
    && 0 <= j < |steps| < |states| && steps[j].Call?
    && (r.Asked? || r.Served?) && r.op == steps[j].op && r.since == |states[j].log|
  }

  lemma RequestStep<S>(s: State<S>, step: Step<S>, s': State<S>, t: Tid)
    requires Next(s, step, s') && t < |s.request|
    ensures |s'.request| == |s.request|
    ensures if step.Call? && step.t == t then s'.request[t] == Asked(step.op, |s.log|)
            else s'.request[t] == s.request[t]
                 || (s.request[t].Asked? && s'.request[t].Served?
                     && s'.request[t].op == s.request[t].op && s'.request[t].since == s.request[t].since)
  {
  }

  lemma {:induction false} RequestIsCall<S>(
    states: seq<State<S>>, steps: seq<Step<S>>, threads: nat, initial: seq<S>, n: nat, t: Tid)
    requires Run(states, steps, threads, initial) && n < |states| && t < threads
    ensures t < |states[n].request|
    ensures states[n].request[t] != Nothing ==> MadeAt(states[n].request[t], states, steps, CallOf(steps, t, n))
  {
    if n > 0 {
      RequestIsCall(states, steps, threads, initial, n - 1, t);
      assert Next(states[n - 1], steps[n - 1], states[n]);
      RequestStep(states[n - 1], steps[n - 1], states[n], t);
    }
  }

  lemma {:induction false} SameThreads<S>(
    states: seq<State<S>>, steps: seq<Step<S>>, threads: nat, initial: seq<S>, n: nat)
    requires Run(states, steps, threads, initial) && n < |states|
    ensures |states[n].request| == threads
  {
    if n > 0 {
      SameThreads(states, steps, threads, initial, n - 1);
      assert Next(states[n - 1], steps[n - 1], states[n]);
    }
  }

  /**
   * What a call returns with is the answer to that very call: its request was not in the log when the call was made.
   */
  lemma AnswersTheCall<S>(states: seq<State<S>>, steps: seq<Step<S>>, threads: nat, initial: seq<S>, i: nat, t: Tid)
    requires Run(states, steps, threads, initial) && i < |steps| && steps[i] == Other(Devices.Return(t))
    ensures t < |states[i].request| && states[i].request[t].Served?
    ensures var (j, r) := (CallOf(steps, t, i), states[i].request[t]);
            j >= 0 && r.op == steps[j].op && |states[j].log| <= r.at < |states[i].log|
              && states[i].log[r.at].op == steps[j].op
  {
    CallsAreAtomic(states, steps, threads, initial, i, t);
    SameThreads(states, steps, threads, initial, i);
    RequestIsCall(states, steps, threads, initial, i, t);
  }

  /** The operations of the calls whose requests were issued in the first `n` steps, in that order. */
  function Issued<S>(steps: seq<Step<S>>, n: nat): seq<Op<S>>
    requires n <= |steps|
  {
    if n == 0 then []
    else
      var before := Issued(steps, n - 1);
      if steps[n - 1].Issue? && CallOf(steps, steps[n - 1].t, n - 1) >= 0
      then before + [steps[CallOf(steps, steps[n - 1].t, n - 1)].op]
      else before
  }

  function Ops<S>(log: seq<Entry<S>>): (r: seq<Op<S>>)
    ensures |r| == |log| && forall i | 0 <= i < |r| :: r[i] == log[i].op
  {
    seq(|log|, i requires 0 <= i < |log| => log[i].op)
  }

  lemma IssueStep<S>(s: State<S>, step: Step<S>, s': State<S>)
    requires Next(s, step, s')
    ensures step.Issue? ==> step.t < |s.request| && s.request[step.t].Asked?
                            && Ops(s'.log) == Ops(s.log) + [s.request[step.t].op]
    ensures !step.Issue? ==> s'.log == s.log
  {
  }

  /** What step `n` must do to the operations in the log. */
  predicate IssueLaw<S(==)>(before: seq<Op<S>>, after: seq<Op<S>>, steps: seq<Step<S>>, n: nat)
    requires n < |steps|
  {
    after == if steps[n].Issue? && CallOf(steps, steps[n].t, n) >= 0
             then before + [steps[CallOf(steps, steps[n].t, n)].op] else before
  }

  lemma IssueBrings<S>(states: seq<State<S>>, steps: seq<Step<S>>, threads: nat, initial: seq<S>, n: nat)
    requires Run(states, steps, threads, initial) && n < |steps|
    ensures IssueLaw(Ops(states[n].log), Ops(states[n + 1].log), steps, n)
  {
    assert Next(states[n], steps[n], states[n + 1]);
    IssueStep(states[n], steps[n], states[n + 1]);
    if steps[n].Issue? {
      SameThreads(states, steps, threads, initial, n);
      RequestIsCall(states, steps, threads, initial, n, steps[n].t);
    }
  }

  lemma {:induction false} IssuesAdd<S>(logs: seq<seq<Op<S>>>, steps: seq<Step<S>>, n: nat)
    requires |logs| == |steps| + 1 && n < |logs| && logs[0] == []
    requires forall i | 0 <= i < |steps| :: IssueLaw(logs[i], logs[i + 1], steps, i)
    ensures logs[n] == Issued(steps, n)
  {
    if n > 0 {
      IssuesAdd(logs, steps, n - 1);
      assert IssueLaw(logs[n - 1], logs[n - 1 + 1], steps, n - 1);
    }
  }

  /** The log is the operations that were called, in the order in which the device was given them. */
  lemma LogIsCalls<S>(states: seq<State<S>>, steps: seq<Step<S>>, threads: nat, initial: seq<S>, n: nat)
    requires Run(states, steps, threads, initial) && n < |states|
    ensures Ops(states[n].log) == Issued(steps, n)
  {
    var logs := seq(|states|, i requires 0 <= i < |states| => Ops(states[i].log));
    forall i | 0 <= i < |steps| ensures IssueLaw(logs[i], logs[i + 1], steps, i) {
      IssueBrings(states, steps, threads, initial, i);
    }
    IssuesAdd(logs, steps, n);
  }

  /** No deadlock: while a call is under way, some thread can take a step or the disk's interrupt is pending. */
  lemma NoDeadlock<S>(s: State<S>, initial: seq<S>, t: Tid) returns (step: Step<S>, s': State<S>)
    requires Safe(s, initial) && t < |s.dev.stage| && s.dev.stage[t] != Devices.Idle
    ensures Next(s, step, s') && !step.Call?
  {
    var d, dev := Devices.NoDeadlock(s.dev, t);
    match d
    case Issue(u) =>
      var r := s.request[u];
      assert s.dev.stage[u] == Devices.Calling;
      var entry := Entry(r.op, Buffer(s.sectors, r.op));
      step := Issue(u);
      s' := State(dev, true, Apply(s.sectors, r.op), s.request[u := Served(r.op, r.since, |s.log|, entry.buffer)],
                  s.log + [entry]);
    case Interrupt => step, s' := Interrupt, s.(dev := dev, active := false);
    case _ => step, s' := Other(d), s.(dev := dev);
  }
}
