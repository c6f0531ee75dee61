/**
  One direction of a path as a distributed system: a sender, a receiver, and a network that loses, repeats
  and reorders packets and the frames coming back.

  Whatever has been sent stays available to the network for ever, so every delivery step may pick any of it,
  any number of times. Times, RTT estimates, packet sizes and the numbers of the packets that carry the
  frames back are arbitrary.
 */
module AckProtocol {
  import opened Basics
  import opened ByteOrder
  import opened AckRanges
  import opened AckFrames
  import opened SentPackets
  import C = ClosePathFrames
  import R = ReceivedPacketHandler
  import S = SentPacketHandler
  import SW = StopWaiting

  /** A packet on the network, with the LeastUnacked field of its STOP_WAITING frame if it carries one. */
  datatype Datagram = Datagram(number: u48, retransmittable: bool, leastUnacked: Option<nat>)

  datatype System = System(
    sender: S.State,
    receiver: R.State,
    stopWaiting: set<nat>,
    sent: set<Datagram>,
    acks: set<seq<byte>>,
    closes: set<seq<byte>>,
    held: set<nat>,
    acked: set<nat>,
    halted: bool
  )

  const INIT := System(S.INIT, R.INIT, {}, {}, {}, {}, {}, {}, false)

  datatype Step =
    | Send(number: u48, frames: seq<FrameKind>, length: nat, now: int, leastUnacked: Option<nat>)
    | Deliver(datagram: Datagram, before39: bool, at: nat)
    | EmitStopWaiting(force: bool)
    | EmitAck(pathID: byte, at: nat, delay: nat)
    | DeliverAck(bytes: seq<byte>, withNumber: nat, clock: S.Clock)
    | EmitClose(pathID: byte)
    | DeliverClose(bytes: seq<byte>, withNumber: nat)
    | Alarm(clock: S.Clock, potentiallyFailed: bool)
    | Dequeue
    | Duplicate(packet: Packet)

  function Numbers(ps: seq<Packet>): set<nat> {
    set p | p in ps :: p.number
  }

  /** A new packet may carry any STOP_WAITING frame handed out before. */
  function DoSend(
    s: System, number: u48, frames: seq<FrameKind>, length: nat, now: int, leastUnacked: Option<nat>): System
  {
    var (sender, outcome) := S.Sent(s.sender, number, frames, length, now);
    if outcome != S.Done || (leastUnacked.Some? && leastUnacked.value !in s.stopWaiting) then s
    else s.(sender := sender, sent := s.sent + {Datagram(number, Strip(frames) != [], leastUnacked)})
  }

  /** The receiver records the number, then handles the frames; an error ends the session. */
  function DoDeliver(s: System, d: Datagram, before39: bool, at: nat): System {
    if d !in s.sent then s
    else
      var (receiver, outcome) := R.Receive(s.receiver, d.number, d.retransmittable, before39, at);
      if outcome != R.Accepted then s.(halted := true)
      else
        s.(receiver := Limited(receiver, d.leastUnacked), held := NowHeld(s, d))
  }

  /** The effect of a STOP_WAITING frame. */
  function Limited(receiver: R.State, leastUnacked: Option<nat>): R.State {
    if leastUnacked.None? || leastUnacked.value == 0 then receiver
    else R.SetLowerLimit(receiver, leastUnacked.value - 1)
  }

  /** The numbers that the receiver's history has held, now that the datagram has arrived. */
  function NowHeld(s: System, d: Datagram): set<nat> {
    if d.number > s.receiver.lowerLimit then s.held + {d.number} else s.held
  }

  function DoEmitAck(order: Order, s: System, pathID: byte, at: nat, delay: nat): System
    requires R.Valid(s.receiver) && s.receiver.largestObserved < TWO_48
  {
    if !R.AckDue(s.receiver, at) then s
    else
      R.AckIsExact(s.receiver, pathID, at);
      var (receiver, f) := R.GetAckFrame(s.receiver, pathID, at);
      match Write(order, f.value, delay)
      case Ok(bytes) => s.(receiver := receiver, acks := s.acks + {bytes})
      case Err(_) => s.(halted := true)
  }

  function DoDeliverAck(order: Order, s: System, bytes: seq<byte>, withNumber: nat, clock: S.Clock): System {
    if bytes !in s.acks || Parse(order, bytes).Err? then s
    else
      var e := S.ReceivedAck(s.sender, Parse(order, bytes).value.0, withNumber, clock);
      s.(sender := e.st, acked := s.acked + Numbers(e.acked))
  }

  function DoEmitClose(order: Order, s: System, pathID: byte): System
    requires R.Valid(s.receiver) && s.receiver.largestObserved < TWO_48
  {
    if s.receiver.ranges == [] then s
    else
      R.CurrentAckIsExact(s.receiver, pathID);
      match C.Write(order, R.GetClosePathFrame(s.receiver, pathID))
      case Ok(bytes) => s.(closes := s.closes + {bytes})
      case Err(_) => s.(halted := true)
  }

  function DoDeliverClose(order: Order, s: System, bytes: seq<byte>, withNumber: nat): System {
    if bytes !in s.closes || C.Parse(order, bytes).Err? then s
    else
      var e := S.ReceivedClosePath(s.sender, C.Parse(order, bytes).value.0, withNumber);
      s.(sender := e.st, acked := s.acked + Numbers(e.acked))
  }

  function DoEmitStopWaiting(s: System, force: bool): System {
    var (sender, frame) := S.GetStopWaiting(s.sender, force);
    s.(sender := sender, stopWaiting := s.stopWaiting + if frame.Some? then {frame.value} else {})
  }

  function DoAlarm(s: System, clock: S.Clock, potentiallyFailed: bool): System {
    s.(sender := S.OnAlarm(s.sender, clock, potentiallyFailed).st)
  }

  /** Retransmissions are taken from the queue, or packets duplicated onto it from another path. */
  function DoRequeue(s: System, packet: Option<Packet>): System {
    s.(sender := if packet.None? then S.Dequeued(s.sender).0 else S.Duplicated(s.sender, packet.value))
  }

  function AtReceiver(order: Order, s: System, step: Step): System
    requires R.Valid(s.receiver) && s.receiver.largestObserved < TWO_48
    requires step.Deliver? || step.EmitAck? || step.EmitClose?
  {
    match step
    case Deliver(d, before39, at) => DoDeliver(s, d, before39, at)
    case EmitAck(pathID, at, delay) => DoEmitAck(order, s, pathID, at, delay)
    case EmitClose(pathID) => DoEmitClose(order, s, pathID)
  }

  function FromPeer(order: Order, s: System, step: Step): System
    requires step.DeliverAck? || step.DeliverClose?
  {
    match step
    case DeliverAck(bytes, withNumber, clock) => DoDeliverAck(order, s, bytes, withNumber, clock)
    case DeliverClose(bytes, withNumber) => DoDeliverClose(order, s, bytes, withNumber)
  }

  function AtSender(s: System, step: Step): System
    requires step.Send? || step.EmitStopWaiting? || step.Alarm? || step.Dequeue? || step.Duplicate?
  {
    match step
    case Send(number, frames, length, now, leastUnacked) => DoSend(s, number, frames, length, now, leastUnacked)
    case EmitStopWaiting(force) => DoEmitStopWaiting(s, force)
    case Alarm(clock, potentiallyFailed) => DoAlarm(s, clock, potentiallyFailed)
    case Dequeue => DoRequeue(s, None)
    case Duplicate(packet) => DoRequeue(s, Some(packet))
  }

  function Apply(order: Order, s: System, step: Step): System
    requires R.Valid(s.receiver) && s.receiver.largestObserved < TWO_48
  {
    if s.halted then s
    else if step.Deliver? || step.EmitAck? || step.EmitClose? then AtReceiver(order, s, step)
    else if step.DeliverAck? || step.DeliverClose? then FromPeer(order, s, step)
    else AtSender(s, step)
  }

  // ----- The invariant -----

  /** A frame that only acknowledges numbers the receiver has held. */
  ghost predicate Honest(f: AckFrame, held: set<nat>) {
    AcksPacket(f, f.largest) && forall q: nat :: AcksPacket(f, q) ==> q in held
  }

  ghost predicate AckHonest(order: Order, bytes: seq<byte>, held: set<nat>) {
    Parse(order, bytes).Ok? && Honest(Parse(order, bytes).value.0, held)
  }

  ghost predicate CloseHonest(order: Order, bytes: seq<byte>, held: set<nat>) {
    C.Parse(order, bytes).Ok? && Honest(C.Parse(order, bytes).value.0.Ack(), held)
  }

  /** Datagrams were numbered by the sender, never skipped, and ask the receiver to stop waiting below them only. */
  ghost predicate DatagramOk(d: Datagram, sender: S.State) {
    && 1 <= d.number <= sender.lastSent
    && d.number !in sender.skipped
    && (d.leastUnacked.Some? ==> 1 <= d.leastUnacked.value <= d.number)
  }

  ghost predicate Sends(sent: set<Datagram>, sender: S.State) {
    forall d :: d in sent ==> DatagramOk(d, sender)
  }

  ghost predicate Holds(receiver: R.State, held: set<nat>) {
    forall q: nat :: Contains(receiver.ranges, q) ==> q in held
  }

  ghost predicate WasSent(n: nat, sent: set<Datagram>) {
    exists d :: d in sent && d.number == n
  }

  ghost predicate AllSent(held: set<nat>, sent: set<Datagram>) {
    forall n :: n in held ==> WasSent(n, sent)
  }

  ghost predicate Inv(order: Order, s: System) {
    && S.Valid(s.sender)
    && R.Valid(s.receiver)
    && s.receiver.largestObserved <= s.sender.lastSent < TWO_48
    && (forall v :: v in s.stopWaiting ==> 1 <= v <= s.sender.lastSent + 1)
    && Sends(s.sent, s.sender)
    && Holds(s.receiver, s.held)
    && AllSent(s.held, s.sent)
    && (forall b :: b in s.acks ==> AckHonest(order, b, s.held))
    && (forall b :: b in s.closes ==> CloseHonest(order, b, s.held))
    && s.acked <= s.held
  }

  // ----- Every step keeps it -----

  lemma {:induction false} SendKeeps(
    order: Order, s: System, number: u48, frames: seq<FrameKind>, length: nat, now: int, leastUnacked: Option<nat>)
    requires Inv(order, s)
    ensures Inv(order, DoSend(s, number, frames, length, now, leastUnacked))
  {
    var s' := DoSend(s, number, frames, length, now, leastUnacked);
    S.SentValid(s.sender, number, frames, length, now);
    if s' != s {
      S.ClimbingBounds(0, s.sender.skipped, s.sender.lastSent);
      forall d | d in s'.sent ensures DatagramOk(d, s'.sender) {
        assert d in s.sent || d.number == number;
      }
      forall n | n in s.held ensures WasSent(n, s'.sent) {
        assert WasSent(n, s.sent);
      }
    }
  }

  lemma {:induction false} ReceiverKeeps(s: System, d: Datagram, before39: bool, at: nat)
    requires R.Valid(s.receiver) && Holds(s.receiver, s.held) && DatagramOk(d, s.sender)
    requires R.Receive(s.receiver, d.number, d.retransmittable, before39, at).1 == R.Accepted
    ensures var receiver := R.Receive(s.receiver, d.number, d.retransmittable, before39, at).0;
      && R.Valid(Limited(receiver, d.leastUnacked))
      && Holds(Limited(receiver, d.leastUnacked), NowHeld(s, d))
      && Limited(receiver, d.leastUnacked).largestObserved == Max(s.receiver.largestObserved, d.number)
  {
    var receiver := R.Receive(s.receiver, d.number, d.retransmittable, before39, at).0;
    R.ReceivedKeeps(s.receiver, d.number, d.retransmittable, before39, at);
    if d.leastUnacked.Some? {
      R.LimitKeeps(receiver, d.leastUnacked.value - 1);
    }
  }

  lemma {:induction false} DeliverKeeps(order: Order, s: System, d: Datagram, before39: bool, at: nat)
    requires Inv(order, s)
    ensures Inv(order, DoDeliver(s, d, before39, at))
  {
    if d in s.sent && R.Receive(s.receiver, d.number, d.retransmittable, before39, at).1 == R.Accepted {
      ReceiverKeeps(s, d, before39, at);
      assert WasSent(d.number, s.sent);
      MoreHeld(order, s.acks, s.closes, s.held, NowHeld(s, d));
    }
  }

  /** Frames stay honest as the receiver holds more. */
  lemma {:induction false} MoreHeld(
    order: Order, acks: set<seq<byte>>, closes: set<seq<byte>>, held: set<nat>, held': set<nat>)
    requires held <= held'
    requires forall b :: b in acks ==> AckHonest(order, b, held)
    requires forall b :: b in closes ==> CloseHonest(order, b, held)
    ensures forall b :: b in acks ==> AckHonest(order, b, held')
    ensures forall b :: b in closes ==> CloseHonest(order, b, held')
  {
  }

  /** Written, cut to what fits, and parsed again, the receiver's ACK is still honest. */
  lemma {:induction false} WrittenAckHonest(order: Order, f: AckFrame, delay: nat, held: set<nat>)
    requires WellFormed(f) && Write(order, f, delay).Ok?
    requires forall q: nat :: AcksPacket(f, q) ==> q in held
    ensures AckHonest(order, Write(order, f, delay).value, held)
  {
    var bytes := Write(order, f, delay).value;
    WriteParse(order, f, delay, []);
    assert bytes + [] == bytes;
    var g := Received(f, delay);
    forall q: nat ensures (AcksPacket(g, q) ==> q in held) && AcksPacket(g, g.largest) {
      ReceivedAcks(f, delay, q);
    }
    assert AcksPacket(g, g.largest) by {
      ReceivedAcks(f, delay, 0);
    }
  }

  lemma {:induction false} WrittenCloseHonest(order: Order, f: C.ClosePathFrame, held: set<nat>)
    requires WellFormed(f.Ack()) && C.Write(order, f).Ok?
    requires forall q: nat :: AcksPacket(f.Ack(), q) ==> q in held
    ensures CloseHonest(order, C.Write(order, f).value, held)
  {
    var bytes := C.Write(order, f).value;
    C.WriteParse(order, f, []);
    assert bytes + [] == bytes;
    var g := Received(f.Ack(), 0);
    var h := C.Received(f).Ack();
    forall q: nat ensures AcksPacket(h, q) <==> AcksPacket(g, q) {
    }
    forall q: nat ensures AcksPacket(g, q) ==> q in held {
      ReceivedAcks(f.Ack(), 0, q);
    }
    assert AcksPacket(g, g.largest) by {
      ReceivedAcks(f.Ack(), 0, 0);
    }
  }

  lemma {:induction false} EmitAckKeeps(order: Order, s: System, pathID: byte, at: nat, delay: nat)
    requires Inv(order, s)
    ensures Inv(order, DoEmitAck(order, s, pathID, at, delay))
  {
    if R.AckDue(s.receiver, at) {
      R.AckIsExact(s.receiver, pathID, at);
      var f := R.GetAckFrame(s.receiver, pathID, at).1.value;
      if Write(order, f, delay).Ok? {
        WrittenAckHonest(order, f, delay, s.held);
      }
    }
  }

  lemma {:induction false} EmitCloseKeeps(order: Order, s: System, pathID: byte)
    requires Inv(order, s)
    ensures Inv(order, DoEmitClose(order, s, pathID))
  {
    if s.receiver.ranges != [] {
      R.CurrentAckIsExact(s.receiver, pathID);
      var f := R.GetClosePathFrame(s.receiver, pathID);
      assert f.Ack() == R.CurrentAck(s.receiver, pathID);
      assert forall q: nat :: AcksPacket(f.Ack(), q) ==> q in s.held;
      if C.Write(order, f).Ok? {
        WrittenCloseHonest(order, f, s.held);
      }
    }
  }

  /** An honest frame names no number that was skipped or not sent yet. */
  lemma {:induction false} HonestIsPlausible(f: AckFrame, held: set<nat>, sent: set<Datagram>, sender: S.State)
    requires Honest(f, held) && AllSent(held, sent) && Sends(sent, sender)
    ensures f.largest <= sender.lastSent && !S.SkippedAcked(sender.skipped, f)
  {
    forall q: nat | AcksPacket(f, q) ensures q <= sender.lastSent && q !in sender.skipped {
      assert WasSent(q, sent);
    }
  }

  /** The sender accepts an honest ACK, unless it is old, and acknowledges only packets the receiver has held. */
  lemma {:induction false} HonestAckAccepted(
    sender: S.State, f: AckFrame, withNumber: nat, clock: S.Clock, held: set<nat>, sent: set<Datagram>)
    requires S.Valid(sender) && Honest(f, held) && AllSent(held, sent) && Sends(sent, sender)
    ensures var e := S.ReceivedAck(sender, f, withNumber, clock);
      && (e.outcome == S.Done || (e.outcome == S.DuplicateAck && withNumber <= sender.largestWithAck))
      && Numbers(e.acked) <= held
  {
    HonestIsPlausible(f, held, sent, sender);
    AckedAmong(sender.history, f);
  }

  lemma {:induction false} HonestCloseAccepted(
    sender: S.State, f: C.ClosePathFrame, withNumber: nat, held: set<nat>, sent: set<Datagram>)
    requires S.Valid(sender) && Honest(f.Ack(), held) && AllSent(held, sent) && Sends(sent, sender)
    ensures var e := S.ReceivedClosePath(sender, f, withNumber);
      && (e.outcome == S.Done || (e.outcome == S.DuplicateAck && withNumber <= sender.largestWithAck))
      && Numbers(e.acked) <= held
  {
    HonestIsPlausible(f.Ack(), held, sent, sender);
    AckedAmong(sender.history, f.Ack());
  }

  /** Operations of the sender that only let packets leave its history. */
  lemma {:induction false} SenderKeeps(order: Order, s: System, e: S.Effect, acked: set<nat>)
    requires Inv(order, s) && S.Departs(s.sender, e) && acked <= s.held
    ensures Inv(order, s.(sender := e.st, acked := s.acked + acked))
  {
    S.DepartsValid(s.sender, e);
  }

  lemma {:induction false} DeliverAckKeeps(order: Order, s: System, bytes: seq<byte>, withNumber: nat, clock: S.Clock)
    requires Inv(order, s)
    ensures Inv(order, DoDeliverAck(order, s, bytes, withNumber, clock))
  {
    if bytes in s.acks {
      assert AckHonest(order, bytes, s.held);
      var f := Parse(order, bytes).value.0;
      HonestAckAccepted(s.sender, f, withNumber, clock, s.held, s.sent);
      S.AckDeparts(s.sender, f, withNumber, clock);
      var e := S.ReceivedAck(s.sender, f, withNumber, clock);
      SenderKeeps(order, s, e, Numbers(e.acked));
    }
  }

  lemma {:induction false} DeliverCloseKeeps(order: Order, s: System, bytes: seq<byte>, withNumber: nat)
    requires Inv(order, s)
    ensures Inv(order, DoDeliverClose(order, s, bytes, withNumber))
  {
    if bytes in s.closes {
      assert CloseHonest(order, bytes, s.held);
      var f := C.Parse(order, bytes).value.0;
      HonestCloseAccepted(s.sender, f, withNumber, s.held, s.sent);
      S.ClosePathDeparts(s.sender, f, withNumber);
      var e := S.ReceivedClosePath(s.sender, f, withNumber);
      SenderKeeps(order, s, e, Numbers(e.acked));
    }
  }

  lemma {:induction false} StopWaitingKeeps(order: Order, s: System, force: bool)
    requires Inv(order, s)
    ensures Inv(order, DoEmitStopWaiting(s, force))
  {
    SW.FrameInRange(s.sender.stopWaiting, force, s.sender.lastSent);
  }

  lemma {:induction false} AlarmKeeps(order: Order, s: System, clock: S.Clock, potentiallyFailed: bool)
    requires Inv(order, s)
    ensures Inv(order, DoAlarm(s, clock, potentiallyFailed))
  {
    S.AlarmDeparts(s.sender, clock, potentiallyFailed);
    SenderKeeps(order, s, S.OnAlarm(s.sender, clock, potentiallyFailed), {});
    assert s.acked + {} == s.acked;
  }

  lemma {:induction false} RequeueKeeps(order: Order, s: System, packet: Option<Packet>)
    requires Inv(order, s)
    ensures Inv(order, DoRequeue(s, packet))
  {
  }

  lemma {:induction false} AtReceiverKeeps(order: Order, s: System, step: Step)
    requires Inv(order, s) && (step.Deliver? || step.EmitAck? || step.EmitClose?)
    ensures Inv(order, AtReceiver(order, s, step))
  {
    match step
    case Deliver(d, before39, at) => DeliverKeeps(order, s, d, before39, at);
    case EmitAck(pathID, at, delay) => EmitAckKeeps(order, s, pathID, at, delay);
    case EmitClose(pathID) => EmitCloseKeeps(order, s, pathID);
  }

  lemma {:induction false} FromPeerKeeps(order: Order, s: System, step: Step)
    requires Inv(order, s) && (step.DeliverAck? || step.DeliverClose?)
    ensures Inv(order, FromPeer(order, s, step))
  {
    match step
    case DeliverAck(bytes, withNumber, clock) => DeliverAckKeeps(order, s, bytes, withNumber, clock);
    case DeliverClose(bytes, withNumber) => DeliverCloseKeeps(order, s, bytes, withNumber);
  }

  lemma {:induction false} AtSenderKeeps(order: Order, s: System, step: Step)
    requires Inv(order, s)
    requires step.Send? || step.EmitStopWaiting? || step.Alarm? || step.Dequeue? || step.Duplicate?
    ensures Inv(order, AtSender(s, step))
  {
    match step
    case Send(number, frames, length, now, leastUnacked) =>
      SendKeeps(order, s, number, frames, length, now, leastUnacked);
    case EmitStopWaiting(force) => StopWaitingKeeps(order, s, force);
    case Alarm(clock, potentiallyFailed) => AlarmKeeps(order, s, clock, potentiallyFailed);
    case Dequeue => RequeueKeeps(order, s, None);
    case Duplicate(packet) => RequeueKeeps(order, s, Some(packet));
  }

  lemma {:induction false} ApplyKeeps(order: Order, s: System, step: Step)
    requires Inv(order, s)
    ensures Inv(order, Apply(order, s, step))
  {
    if s.halted {
    } else if step.Deliver? || step.EmitAck? || step.EmitClose? {
      AtReceiverKeeps(order, s, step);
    } else if step.DeliverAck? || step.DeliverClose? {
      FromPeerKeeps(order, s, step);
    } else {
      AtSenderKeeps(order, s, step);
    }
  }

  // ----- Whole runs -----

  ghost function Run(order: Order, s: System, steps: seq<Step>): (end: System)
    requires Inv(order, s)
    ensures Inv(order, end)
    decreases |steps|
  {
    if steps == [] then s
    else
      ApplyKeeps(order, s, steps[0]);
      Run(order, Apply(order, s, steps[0]), steps[1..])
  }

  lemma {:induction false} InitInv(order: Order)
    ensures Inv(order, INIT)
  {
  }

  ghost function Reached(order: Order, steps: seq<Step>): System {
    InitInv(order);
    Run(order, INIT, steps)
  }

  /**
    In every interleaving of sending, delivery, acknowledgement, closing and timers: the sender treats a
    packet as acknowledged only if the receiver's history has held its number, and the receiver holds only
    numbers that were sent.
   */
  lemma {:induction false} AckSafety(order: Order, steps: seq<Step>, n: nat)
    ensures var s := Reached(order, steps);
      && (n in s.acked ==> n in s.held)
      && (n in s.held ==> WasSent(n, s.sent))
      && (Contains(s.receiver.ranges, n) ==> n in s.held)
  {
    InitInv(order);
    var s := Reached(order, steps);
    assert Inv(order, s);
    assert Holds(s.receiver, s.held);
  }

  /**
    In every reachable state, an ACK that the receiver emitted at any time before parses, and the sender
    either takes it or ignores it as old: it never looks like an ACK for an unsent or a skipped packet.
   */
  lemma {:induction false} AckNeverRejected(
    order: Order, steps: seq<Step>, bytes: seq<byte>, withNumber: nat, clock: S.Clock)
    requires bytes in Reached(order, steps).acks
    ensures Parse(order, bytes).Ok?
    ensures var s := Reached(order, steps);
      var e := S.ReceivedAck(s.sender, Parse(order, bytes).value.0, withNumber, clock);
      && (e.outcome == S.Done || (e.outcome == S.DuplicateAck && withNumber <= s.sender.largestWithAck))
      && Numbers(e.acked) <= s.held
  {
    InitInv(order);
    var s := Reached(order, steps);
    assert Inv(order, s);
    assert AckHonest(order, bytes, s.held);
    HonestAckAccepted(s.sender, Parse(order, bytes).value.0, withNumber, clock, s.held, s.sent);
  }

  lemma {:induction false} CloseNeverRejected(order: Order, steps: seq<Step>, bytes: seq<byte>, withNumber: nat)
    requires bytes in Reached(order, steps).closes
    ensures C.Parse(order, bytes).Ok?
    ensures var s := Reached(order, steps);
      var e := S.ReceivedClosePath(s.sender, C.Parse(order, bytes).value.0, withNumber);
      && (e.outcome == S.Done || (e.outcome == S.DuplicateAck && withNumber <= s.sender.largestWithAck))
      && Numbers(e.acked) <= s.held
  {
    InitInv(order);
    var s := Reached(order, steps);
    assert Inv(order, s);
    assert CloseHonest(order, bytes, s.held);
    HonestCloseAccepted(s.sender, C.Parse(order, bytes).value.0, withNumber, s.held, s.sent);
  }

  /**
    In every reachable state the receiver can build its ACK when one is due: its list of ranges is not
    empty, and the frame covers exactly the list.
   */
  lemma {:induction false} AckAlwaysBuilds(order: Order, steps: seq<Step>, pathID: byte, at: nat)
    requires R.AckDue(Reached(order, steps).receiver, at)
    ensures var r := Reached(order, steps).receiver;
      && r.ranges != [] && r.largestObserved == r.ranges[0].last < TWO_48
      && WellFormed(R.CurrentAck(r, pathID))
      && forall q: nat :: AcksPacket(R.CurrentAck(r, pathID), q) <==> Contains(r.ranges, q)
  {
    InitInv(order);
    var s := Reached(order, steps);
    assert Inv(order, s);
    R.AckIsExact(s.receiver, pathID, at);
  }

  /** In every reachable state, the STOP_WAITING frames handed out so far lie below the next packet number. */
  lemma {:induction false} StopWaitingBelowNext(order: Order, steps: seq<Step>, v: nat)
    requires v in Reached(order, steps).stopWaiting
    ensures 1 <= v <= Reached(order, steps).sender.lastSent + 1
  {
    InitInv(order);
    assert Inv(order, Reached(order, steps));
  }
}
