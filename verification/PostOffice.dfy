/** Messages on the wire: nachos64/code/network/post.cc concatenates the mail header and the data into a packet. */
module MailFormat {
  import opened Bytes

  const MAX_WIRE_SIZE := 64
  const PACKET_HEADER_SIZE := 12
  const MAIL_HEADER_SIZE := 12
  const MAX_PACKET_SIZE := MAX_WIRE_SIZE - PACKET_HEADER_SIZE
  const MAX_MAIL_SIZE := MAX_PACKET_SIZE - MAIL_HEADER_SIZE

  datatype PacketHeader = PacketHeader(to: int, from: int, length: nat)
  datatype MailHeader = MailHeader(to: int, from: int, length: nat)
  datatype Mail = Mail(pktHdr: PacketHeader, mailHdr: MailHeader, data: seq<byte>)
  datatype Packet = Packet(hdr: PacketHeader, data: seq<byte>)

  /** A message that Send's ASSERTs let through, as Send fills it in. */
  predicate Legal(m: Mail, boxes: nat) {
    && |m.data| == m.mailHdr.length <= MAX_MAIL_SIZE && 0 <= m.mailHdr.to < boxes <= 0x8000_0000
    && IsInt(m.mailHdr.from) && m.pktHdr.length == m.mailHdr.length + MAIL_HEADER_SIZE
  }

  /** The packet that Send hands to the network. */
  function Wrap(m: Mail, boxes: nat): (p: Packet)
    requires Legal(m, boxes)
    ensures 0 < p.hdr.length == |p.data| <= MAX_PACKET_SIZE
  {
    Packet(m.pktHdr, WordsImage([Unsigned(m.mailHdr.to), Unsigned(m.mailHdr.from), m.mailHdr.length]) + m.data)
  }

  /** The message that the postal worker reads out of a packet. */
  function Unwrap(p: Packet): Mail
    requires |p.data| >= MAIL_HEADER_SIZE
  {
    var h := MailHeader(IntAt(p.data, 0), IntAt(p.data, 4), WordAt(p.data, 8));
    Mail(p.hdr, h,
      if MAIL_HEADER_SIZE + h.length <= |p.data| then p.data[MAIL_HEADER_SIZE..MAIL_HEADER_SIZE + h.length] else [])
  }

  /** Headers, reply address and payload survive the trip. */
  lemma UnwrapWrap(m: Mail, boxes: nat)
    requires Legal(m, boxes)
    ensures Unwrap(Wrap(m, boxes)) == m
  {
    var ws: seq<word> := [Unsigned(m.mailHdr.to), Unsigned(m.mailHdr.from), m.mailHdr.length];
    var head, all := WordsImage(ws), Wrap(m, boxes).data;
    WordImageAt(ws, 0);
    WordImageAt(ws, 1);
    WordImageAt(ws, 2);
    assert forall k | 0 <= k < MAIL_HEADER_SIZE :: all[k] == head[k];
    assert WordAt(all, 0) == WordAt(head, 0) && WordAt(all, 4) == WordAt(head, 4) && WordAt(all, 8) == WordAt(head, 8);
    assert all[MAIL_HEADER_SIZE..MAIL_HEADER_SIZE + |m.data|] == m.data;
  }
}

/**
 * Post offices of nachos64/code/network/post.cc over the network device of nachos64/code/machine/network.cc, on any
 * number of machines: senders, a lossy wire in order per destination, a one-packet slot, the worker and mailboxes.
 */
module PostOffices {
  import opened Semaphores
  import Devices
  import SynchLists
  import opened MailFormat

  /** A packet under way, or a message in a mailbox, with its place among all messages sent to that machine. */
  datatype Tagged = Tagged(tag: nat, packet: Packet)
  datatype Letter = Letter(tag: nat, mail: Mail)

  const WORKER: Tid := 0

  /** What the postal worker is doing: waiting for a packet, about to read the slot, or putting mail into a box. */
  datatype Worker = Polling | Taking | Putting(box: nat)

  /** The sending half of a machine. `outgoing` is what each thread is sending, and to whom. */
  datatype Sender = Sender(dev: Devices.Device, outgoing: seq<Outgoing>)
  datatype Outgoing = Nothing | To(dest: nat, mail: Mail)

  /**
   * The receiving half. The slot is empty when its length is zero. `sent` lists every message sent to this machine,
   * lost or not; `taken` is one more than the last tag the worker has read, or zero.
   */
  datatype Receiver = Receiver(
    sent: seq<Mail>, wire: seq<Tagged>, slot: Tagged, available: Sem, worker: Worker, taken: nat,
      boxes: seq<SynchLists.State<Letter>>)

  datatype World = World(senders: seq<Sender>, receivers: seq<Receiver>)

  datatype Step =
    | CallSend(t: Tid, dest: nat, mail: Mail)
    | Transmit(t: Tid, lost: bool)
    | Sending(step: Devices.Step)
    | Poll
    | TryMail | TakeMail | NextMail
    | Boxed(box: nat, work: SynchLists.Step<Letter>)

  const EMPTY := Tagged(0, Packet(PacketHeader(0, 0, 0), []))

  function Pack(m: Mail, tag: nat, boxes: nat): Tagged
    requires Legal(m, boxes)
  {
    Tagged(tag, Wrap(m, boxes))
  }

  // Steps of the receiving half

  /** CheckPktAvail: if the slot is free and a packet has come, buffer it and tell the post office. */
  function PollStep(r: Receiver): Receiver {
    if r.slot.packet.hdr.length != 0 || r.wire == [] then r
    else r.(slot := r.wire[0], wire := r.wire[1..], available := r.available.V())
  }

  /** One pass of messageAvailable->P() by the worker. */
  ghost predicate TryMailStep(r: Receiver, r': Receiver) {
    && r.worker == Polling && WORKER !in r.available.queue
    && r' == r.(available := r.available.Try(WORKER), worker := if r.available.value > 0 then Taking else Polling)
  }

  /** Network::Receive empties the slot; the worker parses the packet and calls Append on the mailbox it names. */
  ghost predicate TakeMailStep(r: Receiver, r': Receiver) {
    && r.worker == Taking && |r.slot.packet.data| >= MAIL_HEADER_SIZE
    && var mail := Unwrap(r.slot.packet);
       && 0 <= mail.mailHdr.to < |r.boxes| && |r'.boxes| == |r.boxes|
       && var b := mail.mailHdr.to;
          && SynchLists.Next(r.boxes[b], SynchLists.CallAppend(WORKER, Letter(r.slot.tag, mail)), r'.boxes[b])
          && r' == r.(slot := Tagged(r.slot.tag, r.slot.packet.(hdr := r.slot.packet.hdr.(length := 0))),
                      worker := Putting(b), taken := r.slot.tag + 1, boxes := r.boxes[b := r'.boxes[b]])
  }

  /** Threads in Receive, and the worker in Put, work on a mailbox. */
  ghost predicate BoxedStep(r: Receiver, b: nat, step: SynchLists.Step<Letter>, r': Receiver) {
    && b < |r.boxes| == |r'.boxes| && !step.CallAppend? && (step.CallRemove? ==> step.t != WORKER)
    && SynchLists.Next(r.boxes[b], step, r'.boxes[b]) && r' == r.(boxes := r.boxes[b := r'.boxes[b]])
  }

  ghost predicate ReceiverNext(r: Receiver, step: Step, r': Receiver) {
    match step
    case Poll => r' == PollStep(r)
    case TryMail => TryMailStep(r, r')
    case TakeMail => TakeMailStep(r, r')
    case NextMail =>
      && r.worker.Putting? && r.worker.box < |r.boxes| && WORKER < |r.boxes[r.worker.box].job|
      && r.boxes[r.worker.box].job[WORKER] == SynchLists.Idle && r' == r.(worker := Polling)
    case Boxed(b, s) => BoxedStep(r, b, s, r')
    case _ => false
  }

  /** The network carries a packet to its destination or loses it. */
  function Arrive(r: Receiver, m: Mail, lost: bool, boxes: nat): Receiver
    requires Legal(m, boxes)
  {
    if lost then r.(sent := r.sent + [m]) else r.(sent := r.sent + [m], wire := r.wire + [Pack(m, |r.sent|, boxes)])
  }

  // Steps of the whole

  /** `m` is the machine that takes the step; `boxes` is the number of mailboxes at every post office. */
  ghost predicate Next(w: World, m: nat, step: Step, w': World, boxes: nat) {
    && m < |w.senders| == |w.receivers| && |w'.senders| == |w.senders| && |w'.receivers| == |w.receivers|
    && match step
       case CallSend(t, dest, mail) =>
         && dest < |w.receivers| && Legal(mail, boxes) && mail.pktHdr.to == dest && mail.pktHdr.from == m
         && t < |w.senders[m].outgoing| && Devices.Next(w.senders[m].dev, Devices.Call(t), w'.senders[m].dev)
         && w' == w.(senders := w.senders[m := Sender(w'.senders[m].dev, w.senders[m].outgoing[t := To(dest, mail)])])
       case Transmit(t, lost) =>
         && t < |w.senders[m].outgoing| && Devices.Next(w.senders[m].dev, Devices.Issue(t), w'.senders[m].dev)
         && w.senders[m].outgoing[t].To? && w.senders[m].outgoing[t].dest < |w.receivers|
            && Legal(w.senders[m].outgoing[t].mail, boxes)
         && var (dest, mail) := (w.senders[m].outgoing[t].dest, w.senders[m].outgoing[t].mail);
            w' == World(w.senders[m := w.senders[m].(dev := w'.senders[m].dev)],
                        w.receivers[dest := Arrive(w.receivers[dest], mail, lost, boxes)])
       case Sending(d) =>
         && (d.TryLock? || d.SetHolder? || d.TryDone? || d.Return? || d.Interrupt?)
         && Devices.Next(w.senders[m].dev, d, w'.senders[m].dev)
         && w' == w.(senders := w.senders[m := w.senders[m].(dev := w'.senders[m].dev)])
       case _ =>
         ReceiverNext(w.receivers[m], step, w'.receivers[m]) && w' == w.(receivers := w.receivers[m := w'.receivers[m]])
  }

  // The invariant of the receiving half

  /** `x` carries the message sent to machine `m` under its tag. */
  predicate Carries(x: Tagged, sent: seq<Mail>, m: nat, boxes: nat) {
    x.tag < |sent| && Legal(sent[x.tag], boxes) && sent[x.tag].pktHdr.to == m && x == Pack(sent[x.tag], x.tag, boxes)
  }

  predicate WireInv(r: Receiver, m: nat, boxes: nat) {
    && (forall i | 0 <= i < |r.wire| :: Carries(r.wire[i], r.sent, m, boxes) && r.wire[i].tag >= r.taken)
    && (forall i, j | 0 <= i < j < |r.wire| :: r.wire[i].tag < r.wire[j].tag)
  }

  /** A full slot is exactly one unit of the semaphore, or the worker on its way to read it. */
  predicate SlotInv(r: Receiver, m: nat, boxes: nat) {
    && (r.slot.packet.hdr.length != 0 ==>
          Carries(r.slot, r.sent, m, boxes) && r.slot.tag >= r.taken && forall i | 0 <= i < |r.wire| ::
              r.slot.tag < r.wire[i].tag)
    && r.available.value + (if r.worker == Taking then 1 else 0) == (if r.slot.packet.hdr.length != 0 then 1 else 0)
    && r.available.Inv()
    && (forall t | t in r.available.queue :: t == WORKER && r.worker == Polling)
    && (forall t | t in r.available.woken :: t == WORKER && r.worker == Polling)
  }

  predicate Delivers(x: Letter, sent: seq<Mail>, b: nat) {
    x.tag < |sent| && x.mail == sent[x.tag] && x.mail.mailHdr.to == b
  }

  /** Every letter in box `b` is a message sent to it, each from further on than the one before. */
  ghost predicate LettersInv(s: SynchLists.State<Letter>, sent: seq<Mail>, taken: nat, b: nat) {
    && (forall i | 0 <= i < |s.appended| :: Delivers(s.appended[i], sent, b) && s.appended[i].tag < taken)
    && (forall i, j | 0 <= i < j < |s.appended| :: s.appended[i].tag < s.appended[j].tag)
    && WORKER < |s.job| && !s.job[WORKER].Removing?
    && (forall t | 0 <= t < |s.job| && s.job[t].Appending? :: t == WORKER)
    && (s.job[WORKER].Appending? ==>
          Delivers(s.job[WORKER].item, sent, b) && s.job[WORKER].item.tag < taken
          && forall i | 0 <= i < |s.appended| :: s.appended[i].tag < s.job[WORKER].item.tag)
  }

  ghost predicate BoxInv(r: Receiver, b: nat)
    requires b < |r.boxes|
  {
    SynchLists.Safe(r.boxes[b]) && LettersInv(r.boxes[b], r.sent, r.taken, b)
    && (r.boxes[b].job[WORKER] != SynchLists.Idle ==> r.worker == Putting(b))
  }

  ghost predicate ReceiverInv(r: Receiver, m: nat, boxes: nat) {
    && |r.boxes| == boxes && r.taken <= |r.sent| && WireInv(r, m, boxes) && SlotInv(r, m, boxes)
    && (r.worker.Putting? ==> r.worker.box < boxes)
    && forall b | 0 <= b < boxes :: BoxInv(r, b)
  }

  lemma PollKeeps(r: Receiver, m: nat, boxes: nat)
    requires ReceiverInv(r, m, boxes)
    ensures ReceiverInv(PollStep(r), m, boxes)
  {
    var r' := PollStep(r);
    if r' != r {
      VKeeps(r.available);
      assert Carries(r.wire[0], r.sent, m, boxes);
      forall b | 0 <= b < boxes ensures BoxInv(r', b) {
        assert BoxInv(r, b);
      }
    }
  }

  lemma TryMailKeeps(r: Receiver, r': Receiver, m: nat, boxes: nat)
    requires ReceiverInv(r, m, boxes) && TryMailStep(r, r')
    ensures ReceiverInv(r', m, boxes)
  {
    TryKeeps(r.available, WORKER);
    forall b | 0 <= b < boxes ensures BoxInv(r', b) {
      assert BoxInv(r, b);
    }
  }

  /** The worker finds a packet in the slot, and one for this machine and a box that exists: its ASSERTs hold. */
  lemma SlotIsFull(r: Receiver, m: nat, boxes: nat)
    requires ReceiverInv(r, m, boxes) && r.worker == Taking
    ensures r.slot.packet.hdr.length != 0 && r.slot.packet.hdr.to == m && |r.slot.packet.data| >= MAIL_HEADER_SIZE
    ensures r.slot.tag < |r.sent| && Unwrap(r.slot.packet) == r.sent[r.slot.tag]
    ensures 0 <= Unwrap(r.slot.packet).mailHdr.to < boxes && Unwrap(r.slot.packet).mailHdr.length <= MAX_MAIL_SIZE
  {
    UnwrapWrap(r.sent[r.slot.tag], boxes);
  }

  lemma TakeMailKeeps(r: Receiver, r': Receiver, m: nat, boxes: nat)
    requires ReceiverInv(r, m, boxes) && TakeMailStep(r, r')
    ensures ReceiverInv(r', m, boxes)
  {
    SlotIsFull(r, m, boxes);
    var b0 := Unwrap(r.slot.packet).mailHdr.to;
    assert BoxInv(r, b0);
    SynchLists.NextKeeps(r.boxes[b0], SynchLists.CallAppend(WORKER, Letter(r.slot.tag, Unwrap(r.slot.packet))),
      r'.boxes[b0]);
    TakenLetter(r.boxes[b0], Letter(r.slot.tag, Unwrap(r.slot.packet)), r'.boxes[b0], r.sent, r.taken, b0);
    forall b | 0 <= b < boxes && b != b0 ensures BoxInv(r', b) {
      assert BoxInv(r, b);
    }
  }

  lemma TakenLetter(s: SynchLists.State<Letter>, x: Letter, s': SynchLists.State<Letter>, sent: seq<Mail>, taken: nat,
      b: nat)
    requires LettersInv(s, sent, taken, b) && SynchLists.Next(s, SynchLists.CallAppend(WORKER, x), s')
    requires Delivers(x, sent, b) && taken <= x.tag
    ensures LettersInv(s', sent, x.tag + 1, b)
  {
  }

  lemma LettersKeep(s: SynchLists.State<Letter>, step: SynchLists.Step<Letter>, s': SynchLists.State<Letter>,
      sent: seq<Mail>, taken: nat, b: nat)
    requires LettersInv(s, sent, taken, b) && SynchLists.Next(s, step, s')
    requires !step.CallAppend? && (step.CallRemove? ==> step.t != WORKER)
    ensures LettersInv(s', sent, taken, b)
    ensures s'.job[WORKER] != SynchLists.Idle ==> s.job[WORKER] != SynchLists.Idle
  {
  }

  lemma BoxedKeeps(r: Receiver, b: nat, step: SynchLists.Step<Letter>, r': Receiver, m: nat, boxes: nat)
    requires ReceiverInv(r, m, boxes) && BoxedStep(r, b, step, r')
    ensures ReceiverInv(r', m, boxes)
  {
    forall c | 0 <= c < boxes ensures BoxInv(r', c) {
      assert BoxInv(r, c);
      if c == b {
        BoxedHere(r, b, step, r');
      }
    }
  }

  lemma BoxedHere(r: Receiver, b: nat, step: SynchLists.Step<Letter>, r': Receiver)
    requires b < |r.boxes| && BoxInv(r, b) && BoxedStep(r, b, step, r')
    ensures BoxInv(r', b)
  {
    SynchLists.NextKeeps(r.boxes[b], step, r'.boxes[b]);
    LettersKeep(r.boxes[b], step, r'.boxes[b], r.sent, r.taken, b);
  }

  lemma ArriveKeeps(r: Receiver, mail: Mail, lost: bool, m: nat, boxes: nat)
    requires ReceiverInv(r, m, boxes) && Legal(mail, boxes) && mail.pktHdr.to == m
    ensures ReceiverInv(Arrive(r, mail, lost, boxes), m, boxes)
  {
    var r' := Arrive(r, mail, lost, boxes);
    forall b | 0 <= b < boxes ensures BoxInv(r', b) {
      assert BoxInv(r, b);
      LettersStay(r.boxes[b], r.sent, mail, r.taken, b);
    }
  }

  lemma LettersStay(s: SynchLists.State<Letter>, sent: seq<Mail>, mail: Mail, taken: nat, b: nat)
    requires LettersInv(s, sent, taken, b)
    ensures LettersInv(s, sent + [mail], taken, b)
  {
    forall x: Letter | Delivers(x, sent, b) ensures Delivers(x, sent + [mail], b) {
    }
  }

  lemma ReceiverKeeps(r: Receiver, step: Step, r': Receiver, m: nat, boxes: nat)
    requires ReceiverInv(r, m, boxes) && ReceiverNext(r, step, r')
    ensures ReceiverInv(r', m, boxes)
  {
    match step
    case Poll => PollKeeps(r, m, boxes);
    case TryMail => TryMailKeeps(r, r', m, boxes);
    case TakeMail => TakeMailKeeps(r, r', m, boxes);
    case NextMail => NextMailKeeps(r, r', m, boxes);
    case Boxed(b, s) => BoxedKeeps(r, b, s, r', m, boxes);
  }

  lemma NextMailKeeps(r: Receiver, r': Receiver, m: nat, boxes: nat)
    requires ReceiverInv(r, m, boxes) && ReceiverNext(r, NextMail, r')
    ensures ReceiverInv(r', m, boxes)
  {
    forall b | 0 <= b < boxes ensures BoxInv(r', b) {
      assert BoxInv(r, b);
    }
  }

  // The invariant of the whole

  ghost predicate SenderInv(s: Sender, machines: nat, boxes: nat) {
    && s.dev.Inv() && |s.outgoing| == |s.dev.stage|
    && forall t | 0 <= t < |s.outgoing| && s.outgoing[t].To? ::
         s.outgoing[t].dest < machines && Legal(s.outgoing[t].mail, boxes)
           && s.outgoing[t].mail.pktHdr.to == s.outgoing[t].dest
  }

  ghost predicate Safe(w: World, boxes: nat) {
    && |w.senders| == |w.receivers|
    && (forall m | 0 <= m < |w.senders| :: SenderInv(w.senders[m], |w.receivers|, boxes))
    && (forall m | 0 <= m < |w.receivers| :: ReceiverInv(w.receivers[m], m, boxes))
  }

  lemma SenderChanged(w: World, m: nat, s: Sender, boxes: nat)
    requires Safe(w, boxes) && m < |w.senders| && SenderInv(s, |w.receivers|, boxes)
    ensures Safe(w.(senders := w.senders[m := s]), boxes)
  {
  }

  lemma ReceiverChanged(w: World, m: nat, r: Receiver, boxes: nat)
    requires Safe(w, boxes) && m < |w.receivers| && ReceiverInv(r, m, boxes)
    ensures Safe(w.(receivers := w.receivers[m := r]), boxes)
  {
  }

  /** The sending thread's steps keep the sending half in order. */
  lemma SenderKeeps(s: Sender, d: Devices.Step, dev: Devices.Device, outgoing: seq<Outgoing>, machines: nat, boxes: nat)
    requires SenderInv(s, machines, boxes) && Devices.Next(s.dev, d, dev) && |outgoing| == |s.outgoing|
    requires forall t | 0 <= t < |outgoing| && outgoing[t].To? ::
               outgoing[t].dest < machines && Legal(outgoing[t].mail, boxes)
                 && outgoing[t].mail.pktHdr.to == outgoing[t].dest
    ensures SenderInv(Sender(dev, outgoing), machines, boxes)
  {
    Devices.NextKeeps(s.dev, d, dev);
  }

  lemma TransmitKeeps(w: World, m: nat, t: Tid, lost: bool, w': World, boxes: nat)
    requires Safe(w, boxes) && Next(w, m, Transmit(t, lost), w', boxes)
    ensures Safe(w', boxes)
  {
    var s := w.senders[m];
    assert SenderInv(s, |w.receivers|, boxes);
    var (dest, mail) := (s.outgoing[t].dest, s.outgoing[t].mail);
    assert ReceiverInv(w.receivers[dest], dest, boxes);
    SenderKeeps(s, Devices.Issue(t), w'.senders[m].dev, s.outgoing, |w.receivers|, boxes);
    ArriveKeeps(w.receivers[dest], mail, lost, dest, boxes);
    var v := w.(senders := w.senders[m := Sender(w'.senders[m].dev, s.outgoing)]);
    SenderChanged(w, m, Sender(w'.senders[m].dev, s.outgoing), boxes);
    ReceiverChanged(v, dest, Arrive(w.receivers[dest], mail, lost, boxes), boxes);
  }

  lemma NextKeeps(w: World, m: nat, step: Step, w': World, boxes: nat)
    requires Safe(w, boxes) && Next(w, m, step, w', boxes)
    ensures Safe(w', boxes)
  {
    var s := w.senders[m];
    assert SenderInv(s, |w.receivers|, boxes);
    match step
    case CallSend(t, dest, mail) =>
      var out := s.outgoing[t := To(dest, mail)];
      SenderKeeps(s, Devices.Call(t), w'.senders[m].dev, out, |w.receivers|, boxes);
      SenderChanged(w, m, Sender(w'.senders[m].dev, out), boxes);
    case Transmit(t, lost) => TransmitKeeps(w, m, t, lost, w', boxes);
    case Sending(d) =>
      SenderKeeps(s, d, w'.senders[m].dev, s.outgoing, |w.receivers|, boxes);
      SenderChanged(w, m, Sender(w'.senders[m].dev, s.outgoing), boxes);
    case _ =>
      ReceiverKeeps(w.receivers[m], step, w'.receivers[m], m, boxes);
      ReceiverChanged(w, m, w'.receivers[m], boxes);
  }

  function FreshSender(threads: nat): Sender {
    Sender(Devices.Fresh(threads), seq(threads, t => Nothing))
  }

  /** Each box can be used by `threads` receiving threads beside the worker. */
  function FreshReceiver(threads: nat, boxes: nat): Receiver {
    Receiver([], [], EMPTY, Sem(0, [], {}), Polling, 0, seq(boxes, b => SynchLists.Fresh<Letter>(threads + 1)))
  }

  function Fresh(machines: nat, threads: nat, boxes: nat): World {
    World(seq(machines, m => FreshSender(threads)), seq(machines, m => FreshReceiver(threads, boxes)))
  }

  lemma FreshReceiverInv(threads: nat, boxes: nat, m: nat)
    ensures ReceiverInv(FreshReceiver(threads, boxes), m, boxes)
  {
    var r := FreshReceiver(threads, boxes);
    forall b | 0 <= b < boxes ensures BoxInv(r, b) {
      SynchLists.FreshSafe<Letter>(threads + 1);
    }
  }

  lemma FreshSenderInv(threads: nat, machines: nat, boxes: nat)
    ensures SenderInv(FreshSender(threads), machines, boxes)
  {
    Devices.FreshKeeps(threads);
  }

  lemma FreshSafe(machines: nat, threads: nat, boxes: nat)
    ensures Safe(Fresh(machines, threads, boxes), boxes)
  {
    FreshSenderInv(threads, machines, boxes);
    forall m | 0 <= m < machines ensures ReceiverInv(FreshReceiver(threads, boxes), m, boxes) {
      FreshReceiverInv(threads, boxes, m);
    }
  }

  ghost predicate Run(worlds: seq<World>, who: seq<nat>, steps: seq<Step>, machines: nat, threads: nat, boxes: nat) {
    && |worlds| == |steps| + 1 && |who| == |steps| && worlds[0] == Fresh(machines, threads, boxes)
    && forall i | 0 <= i < |steps| :: Next(worlds[i], who[i], steps[i], worlds[i + 1], boxes)
  }

  lemma {:induction false} RunsAreSafe(worlds: seq<World>, who: seq<nat>, steps: seq<Step>, machines: nat,
      threads: nat, boxes: nat, i: nat)
    requires Run(worlds, who, steps, machines, threads, boxes) && i < |worlds|
    ensures Safe(worlds[i], boxes) && |worlds[i].receivers| == machines
  {
    if i == 0 {
      FreshSafe(machines, threads, boxes);
    } else {
      RunsAreSafe(worlds, who, steps, machines, threads, boxes, i - 1);
      NextKeeps(worlds[i - 1], who[i - 1], steps[i - 1], worlds[i], boxes);
    }
  }

  /** What threads have received from box `b` of a machine, in the order in which the mailbox gave it out. */
  function Received(r: Receiver, b: nat): seq<Letter>
    requires b < |r.boxes|
  {
    r.boxes[b].removed
  }

  /**
   * In every run, with any loss: the messages received from a mailbox are messages sent to it, unchanged in headers,
   * reply address and payload, in the order sent and none of them twice.
   */
  lemma ReceivedInOrder(worlds: seq<World>, who: seq<nat>, steps: seq<Step>, machines: nat, threads: nat, boxes: nat,
      i: nat, m: nat, b: nat)
    requires Run(worlds, who, steps, machines, threads, boxes) && i < |worlds| && m < machines && b < boxes
    ensures m < |worlds[i].receivers| && b < |worlds[i].receivers[m].boxes|
    ensures var (r, got) := (worlds[i].receivers[m], Received(worlds[i].receivers[m], b));
            && (forall k | 0 <= k < |got| ::
                 got[k].tag < |r.sent| && got[k].mail == r.sent[got[k].tag] && got[k].mail.mailHdr.to == b)
            && (forall k, l | 0 <= k < l < |got| :: got[k].tag < got[l].tag)
  {
    RunsAreSafe(worlds, who, steps, machines, threads, boxes, i);
    var r := worlds[i].receivers[m];
    assert ReceiverInv(r, m, boxes) && BoxInv(r, b);
    var s := r.boxes[b];
    assert s.appended == s.removed + s.list;
    assert forall k | 0 <= k < |s.removed| :: s.removed[k] == s.appended[k];
  }

  /** The worker never reads an empty slot, and every ASSERT on the packet it reads holds. */
  lemma WorkerFindsMail(worlds: seq<World>, who: seq<nat>, steps: seq<Step>, machines: nat, threads: nat, boxes: nat,
      i: nat, m: nat)
    requires Run(worlds, who, steps, machines, threads, boxes) && i < |worlds| && m < machines
    requires m < |worlds[i].receivers| && worlds[i].receivers[m].worker == Taking
    ensures var slot := worlds[i].receivers[m].slot;
            && slot.packet.hdr.length != 0 && slot.packet.hdr.to == m && |slot.packet.data| >= MAIL_HEADER_SIZE
            && 0 <= Unwrap(slot.packet).mailHdr.to < boxes && Unwrap(slot.packet).mailHdr.length <= MAX_MAIL_SIZE
  {
    RunsAreSafe(worlds, who, steps, machines, threads, boxes, i);
    SlotIsFull(worlds[i].receivers[m], m, boxes);
  }

  /**
   * A buffered packet stays in the slot, whatever arrives and whoever steps, for as long as the worker has not taken
   * it.
   */
  lemma {:induction false} SlotIsKept(
    worlds: seq<World>, who: seq<nat>, steps: seq<Step>, machines: nat, threads: nat, boxes: nat, i: nat, j: nat,
      m: nat)
    requires Run(worlds, who, steps, machines, threads, boxes) && i <= j < |worlds| && m < machines
    requires m < |worlds[i].receivers| && worlds[i].receivers[m].slot.packet.hdr.length != 0
    requires forall k | i <= k < j :: !(who[k] == m && steps[k] == TakeMail)
    ensures m < |worlds[j].receivers| && worlds[j].receivers[m].slot == worlds[i].receivers[m].slot
    decreases j
  {
    if i < j {
      SlotIsKept(worlds, who, steps, machines, threads, boxes, i, j - 1, m);
      assert Next(worlds[j - 1], who[j - 1], steps[j - 1], worlds[j], boxes);
    }
  }

  /** A machine puts a packet on the network only when the one before has been confirmed sent. */
  lemma OnePacketAtATime(worlds: seq<World>, who: seq<nat>, steps: seq<Step>, machines: nat, threads: nat, boxes: nat,
      i: nat)
    requires Run(worlds, who, steps, machines, threads, boxes) && i < |steps| && steps[i].Transmit?
    ensures who[i] < |worlds[i].senders| && worlds[i].senders[who[i]].dev.scheduled == 0
  {
    RunsAreSafe(worlds, who, steps, machines, threads, boxes, i);
    assert Next(worlds[i], who[i], steps[i], worlds[i + 1], boxes);
    var m := who[i];
    assert SenderInv(worlds[i].senders[m], |worlds[i].receivers|, boxes);
    Devices.IssueKeeps(worlds[i].senders[m].dev, steps[i].t, worlds[i + 1].senders[m].dev);
  }

  // Progress

  /** The worker never sleeps beside a packet in the slot. */
  lemma WorkerSleepsOnEmpty(r: Receiver, m: nat, boxes: nat)
    requires ReceiverInv(r, m, boxes) && WORKER in r.available.queue
    ensures r.slot.packet.hdr.length == 0
  {
    assert WORKER !in r.available.woken;
    assert r.available.woken == {};
  }

  /** When it is awake it can go on: test, read the slot, get its letter into the box or return to the loop. */
  lemma WorkerMoves(r: Receiver, m: nat, boxes: nat) returns (step: Step, r': Receiver)
    requires ReceiverInv(r, m, boxes) && WORKER !in r.available.queue
    ensures ReceiverNext(r, step, r') && step != Poll
  {
    match r.worker
    case Polling =>
      step := TryMail;
      r' := r.(available := r.available.Try(WORKER), worker := if r.available.value > 0 then Taking else Polling);
    case Taking => step, r' := TakeMoves(r, m, boxes);
    case Putting(b) => step, r' := PutMoves(r, m, boxes, b);
  }

  lemma TakeMoves(r: Receiver, m: nat, boxes: nat) returns (step: Step, r': Receiver)
    requires ReceiverInv(r, m, boxes) && r.worker == Taking
    ensures ReceiverNext(r, step, r') && step == TakeMail
  {
    SlotIsFull(r, m, boxes);
    var mail := Unwrap(r.slot.packet);
    var b := mail.mailHdr.to;
    assert BoxInv(r, b);
    var s := r.boxes[b];
    var s' := s.(mon := s.mon.Request(WORKER), job := s.job[WORKER := SynchLists.Appending(Letter(r.slot.tag, mail))]);
    step := TakeMail;
    r' := r.(slot := Tagged(r.slot.tag, r.slot.packet.(hdr := r.slot.packet.hdr.(length := 0))),
             worker := Putting(b), taken := r.slot.tag + 1, boxes := r.boxes[b := s']);
  }

  lemma PutMoves(r: Receiver, m: nat, boxes: nat, b: nat) returns (step: Step, r': Receiver)
    requires ReceiverInv(r, m, boxes) && r.worker == Putting(b) && b < boxes
    ensures ReceiverNext(r, step, r') && step != Poll
  {
    assert BoxInv(r, b);
    var s := r.boxes[b];
    if s.job[WORKER] == SynchLists.Idle {
      step, r' := NextMail, r.(worker := Polling);
    } else {
      var work, s' := SynchLists.NoDeadlock(s, WORKER);
      step, r' := Boxed(b, work), r.(boxes := r.boxes[b := s']);
    }
  }
}
