/**
 * What the post office does with the packets that the network carries: each is on the wire, in the slot, in the
 * worker's hands or in a mailbox, so that received and under way together are sent less lost.
 */
module PostConservation {
  import opened Semaphores
  import Devices
  import SynchLists
  import opened MailFormat
  import opened PostOffices

  // The messages that the calls of a run make

  /** What thread `t` of machine `m` sends with its latest Send in the first `n` steps. */
  function Latest(who: seq<nat>, steps: seq<Step>, m: nat, t: Tid, n: nat): Outgoing
    requires n <= |who| == |steps|
  {
    if n == 0 then Nothing
    else if who[n - 1] == m && steps[n - 1].CallSend? && steps[n - 1].t == t
    then To(steps[n - 1].dest, steps[n - 1].mail)
    else Latest(who, steps, m, t, n - 1)
  }

  /** Step `n` puts a packet for machine `m` on the network. */
  predicate SendsTo(who: seq<nat>, steps: seq<Step>, m: nat, n: nat)
    requires n < |who| == |steps|
  {
    steps[n].Transmit? && var out := Latest(who, steps, who[n], steps[n].t, n); out.To? && out.dest == m
  }

  /** The messages sent to machine `m` in the first `n` steps, lost or not, in order. */
  function SentTo(who: seq<nat>, steps: seq<Step>, m: nat, n: nat): seq<Mail>
    requires n <= |who| == |steps|
  {
    if n == 0 then []
    else
      var before := SentTo(who, steps, m, n - 1);
      if SendsTo(who, steps, m, n - 1)
      then before + [Latest(who, steps, who[n - 1], steps[n - 1].t, n - 1).mail] else before
  }

  /** The places, among the messages sent to machine `m`, of those that the network did not lose. */
  function Carried(who: seq<nat>, steps: seq<Step>, m: nat, n: nat): (r: seq<nat>)
    requires n <= |who| == |steps|
  {
    if n == 0 then []
    else
      var before := Carried(who, steps, m, n - 1);
      if SendsTo(who, steps, m, n - 1) && !steps[n - 1].lost then before + [|SentTo(who, steps, m, n - 1)|] else before
  }

  // Where they are

  function WireTags(wire: seq<Tagged>): (r: seq<nat>)
    ensures |r| == |wire| && forall i | 0 <= i < |r| :: r[i] == wire[i].tag
  {
    seq(|wire|, i requires 0 <= i < |wire| => wire[i].tag)
  }

  function LetterTags(letters: seq<Letter>): (r: seq<nat>)
    ensures |r| == |letters| && forall i | 0 <= i < |r| :: r[i] == letters[i].tag
  {
    seq(|letters|, i requires 0 <= i < |letters| => letters[i].tag)
  }

  function InSlot(slot: Tagged, tag: nat): nat {
    if slot.packet.hdr.length != 0 && slot.tag == tag then 1 else 0
  }

  /** In a mailbox: letters that threads have received, letters waiting, and one that the worker is putting in. */
  function InBox(s: SynchLists.State<Letter>, tag: nat): nat {
    multiset(LetterTags(s.appended))[tag]
    + if WORKER < |s.job| && s.job[WORKER].Appending? && s.job[WORKER].item.tag == tag then 1 else 0
  }

  function InBoxes(boxes: seq<SynchLists.State<Letter>>, n: nat, tag: nat): nat
    requires n <= |boxes|
  {
    if n == 0 then 0 else InBoxes(boxes, n - 1, tag) + InBox(boxes[n - 1], tag)
  }

  /** In how many places the packet of that number is. */
  function Places(r: Receiver, tag: nat): nat {
    multiset(WireTags(r.wire))[tag] + InSlot(r.slot, tag) + InBoxes(r.boxes, |r.boxes|, tag)
  }

  // No step of the receiving half makes or loses a packet

  lemma {:induction false} OneBox(
    boxes: seq<SynchLists.State<Letter>>, b: nat, s: SynchLists.State<Letter>, n: nat, tag: nat)
    requires b < |boxes| && n <= |boxes|
    ensures InBoxes(boxes[b := s], n, tag)
            == InBoxes(boxes, n, tag) + if b < n then InBox(s, tag) - InBox(boxes[b], tag) else 0
  {
    if n > 0 {
      OneBox(boxes, b, s, n - 1, tag);
    }
  }

  lemma LetterAdded(letters: seq<Letter>, x: Letter, tag: nat)
    ensures multiset(LetterTags(letters + [x]))[tag]
            == multiset(LetterTags(letters))[tag] + if x.tag == tag then 1 else 0
  {
    assert LetterTags(letters + [x]) == LetterTags(letters) + [x.tag];
  }

  lemma BoxCall(s: SynchLists.State<Letter>, x: Letter, s': SynchLists.State<Letter>, tag: nat)
    requires SynchLists.Safe(s) && SynchLists.Next(s, SynchLists.CallAppend(WORKER, x), s')
    ensures InBox(s', tag) == InBox(s, tag) + if x.tag == tag then 1 else 0
  {
  }

  lemma BoxWork(s: SynchLists.State<Letter>, step: SynchLists.Step<Letter>, s': SynchLists.State<Letter>, tag: nat)
    requires SynchLists.Safe(s) && SynchLists.Next(s, step, s') && WORKER < |s.job|
    requires forall t | 0 <= t < |s.job| && s.job[t].Appending? :: t == WORKER
    requires !step.CallAppend? && (step.CallRemove? ==> step.t != WORKER)
    ensures InBox(s', tag) == InBox(s, tag)
  {
    SynchLists.LogStep(s, step, s');
    SynchLists.JobStep(s, step, s', WORKER);
    if step.Put? {
      LetterAdded(s.appended, s.job[WORKER].item, tag);
    }
  }

  lemma WireTaken(wire: seq<Tagged>, tag: nat)
    requires wire != []
    ensures multiset(WireTags(wire))[tag] == multiset(WireTags(wire[1..]))[tag] + if wire[0].tag == tag then 1 else 0
  {
    assert WireTags(wire) == [wire[0].tag] + WireTags(wire[1..]);
  }

  lemma PollConserves(r: Receiver, tag: nat)
    requires r.wire != [] ==> r.wire[0].packet.hdr.length != 0
    ensures Places(PollStep(r), tag) == Places(r, tag)
  {
    if PollStep(r) != r {
      WireTaken(r.wire, tag);
    }
  }

  lemma TakeConserves(r: Receiver, r': Receiver, b: nat, x: Letter, tag: nat)
    requires b < |r.boxes| == |r'.boxes| && r'.boxes == r.boxes[b := r'.boxes[b]] && r'.wire == r.wire
    requires SynchLists.Safe(r.boxes[b]) && SynchLists.Next(r.boxes[b], SynchLists.CallAppend(WORKER, x), r'.boxes[b])
    requires r.slot.packet.hdr.length != 0 && r.slot.tag == x.tag && r'.slot.packet.hdr.length == 0
    ensures Places(r', tag) == Places(r, tag)
  {
    BoxCall(r.boxes[b], x, r'.boxes[b], tag);
    OneBox(r.boxes, b, r'.boxes[b], |r.boxes|, tag);
  }

  lemma TakeStepConserves(r: Receiver, r': Receiver, m: nat, boxes: nat, tag: nat)
    requires ReceiverInv(r, m, boxes) && TakeMailStep(r, r')
    ensures Places(r', tag) == Places(r, tag) && r'.sent == r.sent
  {
    SlotIsFull(r, m, boxes);
    var mail := Unwrap(r.slot.packet);
    assert BoxInv(r, mail.mailHdr.to);
    TakeConserves(r, r', mail.mailHdr.to, Letter(r.slot.tag, mail), tag);
  }

  lemma BoxedConserves(r: Receiver, b: nat, step: SynchLists.Step<Letter>, r': Receiver, tag: nat)
    requires b < |r.boxes| && BoxInv(r, b) && BoxedStep(r, b, step, r')
    ensures Places(r', tag) == Places(r, tag) && r'.sent == r.sent
  {
    BoxWork(r.boxes[b], step, r'.boxes[b], tag);
    OneBox(r.boxes, b, r'.boxes[b], |r.boxes|, tag);
  }

  lemma ReceiverConserves(r: Receiver, step: Step, r': Receiver, m: nat, boxes: nat, tag: nat)
    requires ReceiverInv(r, m, boxes) && ReceiverNext(r, step, r')
    ensures Places(r', tag) == Places(r, tag) && r'.sent == r.sent
  {
    match step
    case Poll =>
      if r.wire != [] {
        assert Carries(r.wire[0], r.sent, m, boxes);
      }
      PollConserves(r, tag);
    case TryMail =>
    case TakeMail => TakeStepConserves(r, r', m, boxes, tag);
    case NextMail =>
    case Boxed(b, s) =>
      assert BoxInv(r, b);
      BoxedConserves(r, b, s, r', tag);
  }

  lemma ArriveConserves(r: Receiver, mail: Mail, lost: bool, boxes: nat, tag: nat)
    requires Legal(mail, boxes)
    ensures var r' := Arrive(r, mail, lost, boxes);
            && r'.sent == r.sent + [mail]
            && Places(r', tag) == Places(r, tag) + if !lost && tag == |r.sent| then 1 else 0
  {
    if !lost {
      var p := Pack(mail, |r.sent|, boxes);
      assert WireTags(r.wire + [p]) == WireTags(r.wire) + [|r.sent|];
    }
  }

  // Over every run

  lemma OutgoingStep(w: World, k: nat, step: Step, w': World, boxes: nat, m: nat, t: Tid)
    requires Next(w, k, step, w', boxes) && m < |w.senders| && t < |w.senders[m].outgoing|
    ensures m < |w'.senders| && t < |w'.senders[m].outgoing|
    ensures w'.senders[m].outgoing[t]
            == if k == m && step.CallSend? && step.t == t then To(step.dest, step.mail) else w.senders[m].outgoing[t]
  {
  }

  predicate CallLaw(out: Outgoing, out': Outgoing, who: seq<nat>, steps: seq<Step>, m: nat, t: Tid, n: nat)
    requires n < |who| == |steps|
  {
    out' == if who[n] == m && steps[n].CallSend? && steps[n].t == t then To(steps[n].dest, steps[n].mail) else out
  }

  lemma {:induction false} CallsAdd(outs: seq<Outgoing>, who: seq<nat>, steps: seq<Step>, m: nat, t: Tid, n: nat)
    requires |outs| == |who| + 1 == |steps| + 1 && n < |outs| && outs[0] == Nothing
    requires forall i | 0 <= i < |steps| :: CallLaw(outs[i], outs[i + 1], who, steps, m, t, i)
    ensures outs[n] == Latest(who, steps, m, t, n)
  {
    if n > 0 {
      CallsAdd(outs, who, steps, m, t, n - 1);
      assert CallLaw(outs[n - 1], outs[n - 1 + 1], who, steps, m, t, n - 1);
    }
  }

  lemma OutgoingIsLatest(
    worlds: seq<World>, who: seq<nat>, steps: seq<Step>, machines: nat, threads: nat, boxes: nat, n: nat, m: nat,
      t: Tid)
    requires Run(worlds, who, steps, machines, threads, boxes) && n < |worlds| && m < machines && t < threads
    ensures m < |worlds[n].senders| && t < |worlds[n].senders[m].outgoing|
    ensures worlds[n].senders[m].outgoing[t] == Latest(who, steps, m, t, n)
  {
    forall i | 0 <= i < |worlds| ensures m < |worlds[i].senders| && t < |worlds[i].senders[m].outgoing| {
      SameThreads(worlds, who, steps, machines, threads, boxes, i, m);
    }
    var outs := seq(|worlds|, i requires 0 <= i < |worlds| => worlds[i].senders[m].outgoing[t]);
    forall i | 0 <= i < |steps| ensures CallLaw(outs[i], outs[i + 1], who, steps, m, t, i) {
      assert Next(worlds[i], who[i], steps[i], worlds[i + 1], boxes);
      OutgoingStep(worlds[i], who[i], steps[i], worlds[i + 1], boxes, m, t);
    }
    CallsAdd(outs, who, steps, m, t, n);
  }

  lemma {:induction false} SameThreads(
    worlds: seq<World>, who: seq<nat>, steps: seq<Step>, machines: nat, threads: nat, boxes: nat, n: nat, m: nat)
    requires Run(worlds, who, steps, machines, threads, boxes) && n < |worlds| && m < machines
    ensures |worlds[n].senders| == machines && |worlds[n].senders[m].outgoing| == threads
  {
    if n > 0 {
      SameThreads(worlds, who, steps, machines, threads, boxes, n - 1, m);
      assert Next(worlds[n - 1], who[n - 1], steps[n - 1], worlds[n], boxes);
    }
  }

  /** What one step of the whole does to the messages of one machine. */
  lemma StepConserves(w: World, k: nat, step: Step, w': World, boxes: nat, m: nat, tag: nat)
    requires Safe(w, boxes) && Next(w, k, step, w', boxes) && m < |w.receivers| && !step.Transmit?
    ensures m < |w'.receivers| && w'.receivers[m].sent == w.receivers[m].sent
    ensures Places(w'.receivers[m], tag) == Places(w.receivers[m], tag)
  {
    if !step.CallSend? && !step.Sending? {
      assert ReceiverInv(w.receivers[k], k, boxes);
      ReceiverConserves(w.receivers[k], step, w'.receivers[k], k, boxes, tag);
    }
  }

  lemma TransmitConserves(w: World, k: nat, t: Tid, lost: bool, w': World, boxes: nat, m: nat, tag: nat)
    requires Next(w, k, Transmit(t, lost), w', boxes) && m < |w.receivers|
    ensures t < |w.senders[k].outgoing| && w.senders[k].outgoing[t].To? && m < |w'.receivers|
    ensures var (r, r', out) := (w.receivers[m], w'.receivers[m], w.senders[k].outgoing[t]);
            if out.dest == m
            then r'.sent == r.sent + [out.mail]
                 && Places(r', tag) == Places(r, tag) + if !lost && tag == |r.sent| then 1 else 0
            else r' == r
  {
    var out := w.senders[k].outgoing[t];
    ArriveConserves(w.receivers[out.dest], out.mail, lost, boxes, tag);
  }

  lemma {:induction false} CarriedBelow(who: seq<nat>, steps: seq<Step>, m: nat, n: nat)
    requires n <= |who| == |steps|
    ensures forall i | 0 <= i < |Carried(who, steps, m, n)| :: Carried(who, steps, m, n)[i] < |SentTo(who, steps, m, n)|
  {
    if n > 0 {
      CarriedBelow(who, steps, m, n - 1);
    }
  }

  /** What step `n` must do to machine `m`, in terms of the calls of the run. */
  predicate Law(r: Receiver, r': Receiver, who: seq<nat>, steps: seq<Step>, m: nat, n: nat, tag: nat)
    requires n < |who| == |steps|
  {
    if SendsTo(who, steps, m, n)
    then r'.sent == r.sent + [Latest(who, steps, who[n], steps[n].t, n).mail]
         && Places(r', tag) == Places(r, tag) + if !steps[n].lost && tag == |r.sent| then 1 else 0
    else r'.sent == r.sent && Places(r', tag) == Places(r, tag)
  }

  lemma RunStep(
    worlds: seq<World>, who: seq<nat>, steps: seq<Step>, machines: nat, threads: nat, boxes: nat, n: nat, m: nat,
      tag: nat)
    requires Run(worlds, who, steps, machines, threads, boxes) && n < |steps| && m < machines
    ensures m < |worlds[n].receivers| && m < |worlds[n + 1].receivers|
    ensures Law(worlds[n].receivers[m], worlds[n + 1].receivers[m], who, steps, m, n, tag)
  {
    RunsAreSafe(worlds, who, steps, machines, threads, boxes, n);
    var (w, k, step) := (worlds[n], who[n], steps[n]);
    assert Next(w, k, step, worlds[n + 1], boxes);
    SameThreads(worlds, who, steps, machines, threads, boxes, n, k);
    if step.Transmit? {
      TransmitConserves(w, k, step.t, step.lost, worlds[n + 1], boxes, m, tag);
      OutgoingIsLatest(worlds, who, steps, machines, threads, boxes, n, k, step.t);
    } else {
      StepConserves(w, k, step, worlds[n + 1], boxes, m, tag);
    }
  }

  lemma {:induction false} LawAdds(rs: seq<Receiver>, who: seq<nat>, steps: seq<Step>, m: nat, n: nat, tag: nat)
    requires |rs| == |who| + 1 == |steps| + 1 && n < |rs| && rs[0].sent == [] && Places(rs[0], tag) == 0
    requires forall i | 0 <= i < |steps| :: Law(rs[i], rs[i + 1], who, steps, m, i, tag)
    ensures rs[n].sent == SentTo(who, steps, m, n)
    ensures Places(rs[n], tag) == if tag in Carried(who, steps, m, n) then 1 else 0
  {
    if n > 0 {
      LawAdds(rs, who, steps, m, n - 1, tag);
      assert Law(rs[n - 1], rs[n - 1 + 1], who, steps, m, n - 1, tag);
      CarriedStep(who, steps, m, n - 1, tag);
    }
  }

  /**
   * In every run the messages sent to a machine are those of the Send calls, in the order of transmission. Every one
   * that the network carried is in exactly one place: on the wire, in the slot, in the worker's hands, or in a mailbox,
   * received or not. One that it lost is in none.
   */
  lemma MailIsConserved(
    worlds: seq<World>, who: seq<nat>, steps: seq<Step>, machines: nat, threads: nat, boxes: nat, n: nat, m: nat,
      tag: nat)
    requires Run(worlds, who, steps, machines, threads, boxes) && n < |worlds| && m < machines
    ensures m < |worlds[n].receivers| && worlds[n].receivers[m].sent == SentTo(who, steps, m, n)
    ensures Places(worlds[n].receivers[m], tag) == if tag in Carried(who, steps, m, n) then 1 else 0
  {
    var rs := Timeline(worlds, who, steps, machines, threads, boxes, m, tag);
    LawAdds(rs, who, steps, m, n, tag);
  }

  lemma SameMachines(
    worlds: seq<World>, who: seq<nat>, steps: seq<Step>, machines: nat, threads: nat, boxes: nat, m: nat)
    requires Run(worlds, who, steps, machines, threads, boxes) && m < machines
    ensures forall i | 0 <= i < |worlds| :: m < |worlds[i].receivers|
    ensures worlds[0].receivers[m] == FreshReceiver(threads, boxes)
  {
    forall i | 0 <= i < |worlds| ensures m < |worlds[i].receivers| {
      RunsAreSafe(worlds, who, steps, machines, threads, boxes, i);
    }
  }

  /** The states of one machine's receiving half, one after the other. */
  lemma Timeline(
    worlds: seq<World>, who: seq<nat>, steps: seq<Step>, machines: nat, threads: nat, boxes: nat, m: nat, tag: nat)
    returns (rs: seq<Receiver>)
    requires Run(worlds, who, steps, machines, threads, boxes) && m < machines
    ensures |rs| == |worlds| == |who| + 1 == |steps| + 1 && rs[0].sent == [] && Places(rs[0], tag) == 0
    ensures forall i | 0 <= i < |rs| :: m < |worlds[i].receivers| && rs[i] == worlds[i].receivers[m]
    ensures forall i | 0 <= i < |steps| :: Law(rs[i], rs[i + 1], who, steps, m, i, tag)
  {
    SameMachines(worlds, who, steps, machines, threads, boxes, m);
    rs := seq(|worlds|, i requires 0 <= i < |worlds| => worlds[i].receivers[m]);
    NoMail(threads, boxes, boxes, tag);
    forall i | 0 <= i < |steps| ensures Law(rs[i], rs[i + 1], who, steps, m, i, tag) {
      RunStep(worlds, who, steps, machines, threads, boxes, i, m, tag);
      assert rs[i] == worlds[i].receivers[m] && rs[i + 1] == worlds[i + 1].receivers[m];
    }
  }

  lemma CarriedStep(who: seq<nat>, steps: seq<Step>, m: nat, n: nat, tag: nat)
    requires n < |who| == |steps|
    ensures var added := SendsTo(who, steps, m, n) && !steps[n].lost && tag == |SentTo(who, steps, m, n)|;
            && (tag in Carried(who, steps, m, n + 1) <==> tag in Carried(who, steps, m, n) || added)
            && (added ==> tag !in Carried(who, steps, m, n))
  {
    CarriedBelow(who, steps, m, n);
  }

  lemma {:induction false} NoMail(threads: nat, boxes: nat, n: nat, tag: nat)
    requires n <= boxes
    ensures InBoxes(FreshReceiver(threads, boxes).boxes, n, tag) == 0
    ensures n == boxes ==> Places(FreshReceiver(threads, boxes), tag) == 0
  {
    if n > 0 {
      NoMail(threads, boxes, n - 1, tag);
    }
  }
}
