/**
  Whether data can get lost at the sender: streams, the framer's queue, and the packets of every path with their
  acknowledgements, losses, timers and retransmissions (quic-go/scheduler.go, quic-go/stream_framer.go,
  quic-go/ackhandler/sent_packet_handler.go).

  Paths, packet numbers, the order of streams, the space in packets, clocks, windows, encryption levels and what
  the peer acknowledges are arbitrary.
 */
module Retransmission {
  import opened Basics
  import opened AckFrames
  import opened ClosePathFrames
  import opened StreamFrames
  import opened SentPackets
  import opened SentFrames
  import D = StreamDelivery
  import F = StreamFramer
  import FC = FlowControlManager
  import FP = FramePartition
  import H = SentPacketHandler
  import P = PacketPacker
  import W = SendStream

  /** `contents` is what each stream has handed out. */
  datatype System = System(
    client: bool, framer: F.State, contents: F.Contents, paths: map<nat, Path>, handshakeComplete: bool, halted: bool)

  /** Number, length and time of sending of a packet. */
  datatype Stamp = Stamp(number: nat, length: nat, now: int)

  datatype Step =
    | OpenPath(path: nat)
    | OpenStream(id: nat)
    | WriteData(id: nat, p: seq<byte>)
    | CloseStream(id: nat)
    | FailStream(id: nat)
    | SetWindows(fc: FC.State)
    | CompleteHandshake
    | SendData(
        path: nat, level: Level, controls: seq<FrameKind>, order: seq<nat>, space: nat, negotiated: FC.Negotiated,
        stamp: Stamp)
    | SendCrypto(path: nat, level: Level, space: nat, stamp: Stamp)
    | ReceiveAck(path: nat, ack: AckFrame, withNumber: nat, clock: H.Clock)
    | ReceiveClosePath(path: nat, frame: ClosePathFrame, withNumber: nat)
    | Alarm(path: nat, clock: H.Clock, potentiallyFailed: bool)
    | Duplicate(path: nat, packet: Packet)
    | Retransmit(path: nat, target: Option<nat>, stamp: Stamp)

  function Init(client: bool, fc: FC.State): System {
    System(client, F.State(map[], fc, [], [], []), map[], map[], false, false)
  }

  // ----- The invariant -----

  ghost predicate FramerOk(framer: F.State, contents: F.Contents) {
    && F.Refers(framer.queue, |framer.store|)
    && F.SenderOk(framer.writers, contents)
    && FP.Partition(framer.store, contents)
  }

  ghost predicate PathsOk(paths: map<nat, Path>, store: F.Store) {
    forall id :: id in paths ==> PathOk(paths[id], store)
  }

  ghost predicate Inv(s: System) {
    FramerOk(s.framer, s.contents) && PathsOk(s.paths, s.framer.store)
  }

  lemma {:induction false} InitOk(client: bool, fc: FC.State)
    ensures Inv(Init(client, fc))
  {
  }

  // ----- Steps -----

  /** A server sends data only with forward-secure encryption. */
  predicate CanSendData(client: bool, level: Level) {
    level == ForwardSecure || (client && level == Secure)
  }

  function OnWriter(s: System, id: nat, w: W.State): System {
    s.(framer := s.framer.(writers := s.framer.writers[id := w]))
  }

  /** A packet that the handler refuses closes the connection. */
  function Tracked(s: System, path: nat, kinds: seq<FrameKind>, sent: Sent, stamp: Stamp): System
    requires path in s.paths
  {
    var (path', ok) := Track(s.paths[path], stamp.number, kinds, stamp.length, stamp.now, sent);
    if ok then s.(paths := s.paths[path := path']) else s.(halted := true)
  }

  function StreamKinds(n: nat): seq<FrameKind> {
    if n == 0 then [] else [Stream] + StreamKinds(n - 1)
  }

  /** The framer and the frames of the packet. */
  function Composed(s: System, step: Step): (r: (F.State, seq<nat>))
    requires F.Refers(s.framer.queue, |s.framer.store|) && step.SendData?
    ensures F.Refers(r.1, |r.0.store|)
  {
    if CanSendData(s.client, step.level) then P.ComposeData(s.framer, step.order, step.space, step.negotiated)
    else (s.framer, [])
  }

  function ComposedContents(s: System, step: Step): F.Contents
    requires F.Refers(s.framer.queue, |s.framer.store|) && step.SendData?
  {
    if CanSendData(s.client, step.level)
    then F.ContentsAfter(s.framer, step.order, step.space, step.negotiated, s.contents) else s.contents
  }

  /** The packet is composed; a lone STOP_WAITING is not worth a packet. */
  function DoSendData(s: System, step: Step): System
    requires F.Refers(s.framer.queue, |s.framer.store|) && step.SendData? && step.path in s.paths
  {
    var (framer, ids) := Composed(s, step);
    var s' := s.(framer := framer, contents := ComposedContents(s, step));
    if ids == [] && (step.controls == [] || step.controls == [StopWaiting]) then s'
    else
      Tracked(
        s', step.path, step.controls + StreamKinds(|ids|), Sent(ids, F.Frames(framer.store, ids), step.level),
        step.stamp)
  }

  function AfterCrypto(s: System, w: W.State, f: StreamFrame): System {
    s.(
      framer := s.framer.(writers := s.framer.writers[1 := w], store := s.framer.store + [f]),
      contents := F.Extended(s.contents, Some(f)))
  }

  function DoSendCrypto(s: System, step: Step): System
    requires step.SendCrypto? && step.path in s.paths
  {
    if 1 !in s.framer.writers || step.space > MAX_PACKET_SIZE then s
    else
      match D.CryptoFrame(s.framer.writers[1], step.space)
      case None => s
      case Some((w, f)) =>
        Tracked(
          AfterCrypto(s, w, f), step.path, [Stream], Sent([|s.framer.store|], [f], step.level), step.stamp)
  }

  /** Late acknowledgements are ignored; other errors close the connection. */
  function DoEffect(s: System, path: nat, e: H.Effect): System
    requires path in s.paths
  {
    if e.outcome == H.Done || e.outcome == H.DuplicateAck
    then s.(paths := s.paths[path := OnEffect(s.paths[path], e)]) else s.(halted := true)
  }

  /** The packet to be sent again next on the path, and what it held. */
  function Next(path: Path): Packet
    requires path.handler.queue != []
  {
    path.handler.queue[0]
  }

  predicate Ready(s: System, path: nat) {
    path in s.paths && s.paths[path].handler.queue != [] && Next(s.paths[path]).number in s.paths[path].sent
  }

  function NextSent(s: System, path: nat): Sent
    requires Ready(s, path)
  {
    s.paths[path].sent[Next(s.paths[path]).number]
  }

  /** The state once the packet is taken from the queue. */
  function TakenOff(s: System, path: nat): System
    requires path in s.paths
  {
    s.(paths := s.paths[path := Dequeued(s.paths[path])])
  }

  /**
    Frames of a packet with forward-secure encryption are queued at the framer. Other packets are sent again as
    they are until the handshake is complete, and dropped from then on, or if there is no path to send them on.
   */
  function DoRetransmit(s: System, step: Step): System
    requires step.Retransmit? && Ready(s, step.path) && F.Refers(NextSent(s, step.path).names, |s.framer.store|)
  {
    var p, sent, s' := Next(s.paths[step.path]), NextSent(s, step.path), TakenOff(s, step.path);
    if sent.level == ForwardSecure then s'.(framer := s.framer.(queue := s.framer.queue + sent.names))
    else if Drops(s, step) then s'
    else
      Tracked(
        s', step.target.value, [StopWaiting] + p.frames,
        Sent(sent.names, F.Frames(s.framer.store, sent.names), sent.level), step.stamp)
  }

  predicate Drops(s: System, step: Step)
    requires step.Retransmit? && Ready(s, step.path)
  {
    && NextSent(s, step.path).level != ForwardSecure
    && (s.handshakeComplete || step.target.None? || step.target.value !in s.paths)
  }

  /** What the application and the peer do to streams and paths. */
  function ApplyOutside(s: System, step: Step): System {
    match step
    case OpenPath(path) => if path in s.paths then s else s.(paths := s.paths[path := NEW_PATH])
    case OpenStream(id) =>
      if id in s.contents then s
      else s.(
        framer := s.framer.(writers := s.framer.writers[id := W.INIT]), contents := s.contents[id := []])
    case WriteData(id, p) =>
      if id in s.framer.writers then OnWriter(s, id, W.Write(s.framer.writers[id], p).0) else s
    case CloseStream(id) => if id in s.framer.writers then OnWriter(s, id, W.Close(s.framer.writers[id])) else s
    case FailStream(id) => if id in s.framer.writers then OnWriter(s, id, W.Fail(s.framer.writers[id])) else s
    case SetWindows(fc) => s.(framer := s.framer.(fc := fc))
    case CompleteHandshake => s.(handshakeComplete := true)
    case Duplicate(path, packet) =>
      if path in s.paths && packet in s.paths[path].handler.history
      then s.(paths := s.paths[path := Duplicated(s.paths[path], packet)]) else s
    case ReceiveAck(path, ack, withNumber, clock) =>
      if path in s.paths then DoEffect(s, path, H.ReceivedAck(s.paths[path].handler, ack, withNumber, clock)) else s
    case ReceiveClosePath(path, frame, withNumber) =>
      if path in s.paths then DoEffect(s, path, H.ReceivedClosePath(s.paths[path].handler, frame, withNumber)) else s
    case Alarm(path, clock, potentiallyFailed) =>
      if path in s.paths then DoEffect(s, path, H.OnAlarm(s.paths[path].handler, clock, potentiallyFailed)) else s
    case _ => s
  }

  ghost function Apply(s: System, step: Step): System
    requires Inv(s)
  {
    if s.halted then s
    else match step
      case SendData(path, _, _, _, _, _, _) => if path in s.paths then DoSendData(s, step) else s
      case SendCrypto(path, _, _, _) => if path in s.paths then DoSendCrypto(s, step) else s
      case Retransmit(path, _, _) => if Ready(s, path) then DoRetransmit(s, step) else s
      case _ => ApplyOutside(s, step)
  }

  // ----- Who answers for a byte -----

  /** The frame is queued at the framer, or some path answers for the byte. */
  ghost predicate Safe(s: System, name: nat, id: nat, b: nat) {
    name in s.framer.queue || exists path :: path in s.paths && Answers(s.paths[path], name, id, b)
  }

  /** Until the connection is closed, no byte that is in a frame object of the stream is forgotten. */
  ghost predicate StreamSafe(s: System, id: nat) {
    s.halted || forall name: nat, b: nat ::
      name < |s.framer.store| && FP.Holds(s.framer.store[name], id, b) ==> Safe(s, name, id, b)
  }

  // ----- Steps that change one path -----

  lemma {:induction false} OnePathOk(s: System, path: nat, path': Path)
    requires Inv(s) && PathOk(path', s.framer.store)
    ensures Inv(s.(paths := s.paths[path := path']))
  {
  }

  lemma {:induction false} OnePathSafe(s: System, path: nat, path': Path, name: nat, id: nat, b: nat)
    requires Safe(s, name, id, b)
    requires path in s.paths && Answers(s.paths[path], name, id, b) ==> Answers(path', name, id, b)
    ensures Safe(s.(paths := s.paths[path := path']), name, id, b)
  {
    var s' := s.(paths := s.paths[path := path']);
    if name !in s.framer.queue {
      var q :| q in s.paths && Answers(s.paths[q], name, id, b);
      assert q in s'.paths && Answers(s'.paths[q], name, id, b);
    }
  }

  lemma {:induction false} TrackedOk(s: System, path: nat, kinds: seq<FrameKind>, sent: Sent, stamp: Stamp)
    requires Inv(s) && path in s.paths && SentOk(sent, s.framer.store) && (sent.names == [] || Stream in kinds)
    ensures Inv(Tracked(s, path, kinds, sent, stamp))
  {
    TrackOk(s.paths[path], stamp.number, kinds, stamp.length, stamp.now, sent, s.framer.store);
  }

  /** If the packet is not refused, the byte is answered for if it was before, or if the packet holds its frame. */
  lemma {:induction false} TrackedSafe(
    s: System, path: nat, kinds: seq<FrameKind>, sent: Sent, stamp: Stamp, name: nat, id: nat, b: nat)
    requires Inv(s) && path in s.paths && (sent.names == [] || Stream in kinds)
    requires Safe(s, name, id, b) || name in sent.names
    requires !Tracked(s, path, kinds, sent, stamp).halted
    ensures Safe(Tracked(s, path, kinds, sent, stamp), name, id, b)
  {
    var (path', ok) := Track(s.paths[path], stamp.number, kinds, stamp.length, stamp.now, sent);
    if name in sent.names {
      TrackHolds(s.paths[path], stamp.number, kinds, stamp.length, stamp.now, sent, name);
      var s' := s.(paths := s.paths[path := path']);
      assert path in s'.paths && Answers(s'.paths[path], name, id, b);
    } else {
      if Answers(s.paths[path], name, id, b) {
        TrackAnswers(
          s.paths[path], stamp.number, kinds, stamp.length, stamp.now, sent, s.framer.store, name, id, b);
      }
      OnePathSafe(s, path, path', name, id, b);
    }
  }

  /** No byte of the stream is forgotten if the named frames are in a packet. */
  ghost predicate SafeWith(s: System, names: seq<nat>, id: nat) {
    forall name: nat, b: nat ::
      name < |s.framer.store| && FP.Holds(s.framer.store[name], id, b) ==> Safe(s, name, id, b) || name in names
  }

  lemma {:induction false} TrackedStreamSafe(
    s: System, path: nat, kinds: seq<FrameKind>, sent: Sent, stamp: Stamp, id: nat)
    requires Inv(s) && path in s.paths && (sent.names == [] || Stream in kinds) && SafeWith(s, sent.names, id)
    ensures StreamSafe(Tracked(s, path, kinds, sent, stamp), id)
  {
    var s' := Tracked(s, path, kinds, sent, stamp);
    if !s'.halted {
      forall name: nat, b: nat | name < |s.framer.store| && FP.Holds(s.framer.store[name], id, b)
        ensures Safe(s', name, id, b)
      {
        TrackedSafe(s, path, kinds, sent, stamp, name, id, b);
      }
    }
  }

  // ----- Packets of data -----

  lemma {:induction false} StreamKindsIn(n: nat)
    ensures n > 0 ==> Stream in StreamKinds(n)
  {
  }

  lemma {:induction false} ComposedOk(s: System, step: Step)
    requires Inv(s) && step.SendData?
    ensures var framer := Composed(s, step).0;
      FramerOk(framer, ComposedContents(s, step)) && FP.Shrinks(s.framer.store, framer.store)
  {
    if CanSendData(s.client, step.level) {
      FP.ComposePartition(s.framer, step.order, step.space, step.negotiated, s.contents);
      FP.ComposeShrinks(s.framer, step.order, step.space, step.negotiated);
      ComposedSenderOk(s.framer, step.order, step.space, step.negotiated, s.contents);
    }
  }

  lemma {:induction false} ComposedSenderOk(
    framer: F.State, order: seq<nat>, space: nat, negotiated: FC.Negotiated, contents: F.Contents)
    requires F.Refers(framer.queue, |framer.store|) && F.SenderOk(framer.writers, contents)
    ensures F.SenderOk(
      P.ComposeData(framer, order, space, negotiated).0.writers,
      F.ContentsAfter(framer, order, space, negotiated, contents))
  {
    F.NewFramesOk(framer, order, space, negotiated, contents);
  }

  /** A new framer state whose objects have only shrunk leaves all packets in order. */
  lemma {:induction false} FramerMoves(s: System, framer: F.State, contents: F.Contents)
    requires Inv(s) && FramerOk(framer, contents) && FP.Shrinks(s.framer.store, framer.store)
    ensures Inv(s.(framer := framer, contents := contents))
  {
    forall id | id in s.paths ensures PathOk(s.paths[id], framer.store) {
      PathStaysOk(s.paths[id], s.framer.store, framer.store);
    }
  }

  lemma {:induction false} SendDataOk(s: System, step: Step)
    requires Inv(s) && step.SendData? && step.path in s.paths
    ensures Inv(DoSendData(s, step))
  {
    var (framer, ids) := Composed(s, step);
    var s' := s.(framer := framer, contents := ComposedContents(s, step));
    ComposedOk(s, step);
    FramerMoves(s, framer, s'.contents);
    WritesOk(framer.store, ids, step.level);
    StreamKindsIn(|ids|);
    TrackedOk(
      s', step.path, step.controls + StreamKinds(|ids|), Sent(ids, F.Frames(framer.store, ids), step.level),
      step.stamp);
  }

  /** Every byte of an object was safe before, or the object is in the packet. */
  lemma {:induction false} ComposedSafe(s: System, step: Step, id: nat)
    requires Inv(s) && !s.halted && step.SendData? && StreamSafe(s, id)
    ensures var (framer, ids) := Composed(s, step);
      SafeWith(s.(framer := framer, contents := ComposedContents(s, step)), ids, id)
  {
    var (framer, ids) := Composed(s, step);
    var s' := s.(framer := framer, contents := ComposedContents(s, step));
    ComposedOk(s, step);
    forall name: nat, b: nat | name < |framer.store| && FP.Holds(framer.store[name], id, b)
      ensures Safe(s', name, id, b) || name in ids
    {
      if CanSendData(s.client, step.level) {
        FP.ComposeNames(s.framer, step.order, step.space, step.negotiated, name);
      }
      if name < |s.framer.store| {
        assert FP.Part(framer.store[name], s.framer.store[name]);
        assert Safe(s, name, id, b);
      }
    }
  }

  lemma {:induction false} SendDataSafe(s: System, step: Step, id: nat)
    requires Inv(s) && !s.halted && step.SendData? && step.path in s.paths && StreamSafe(s, id)
    ensures StreamSafe(DoSendData(s, step), id)
  {
    var (framer, ids) := Composed(s, step);
    var s' := s.(framer := framer, contents := ComposedContents(s, step));
    var kinds, sent := step.controls + StreamKinds(|ids|), Sent(ids, F.Frames(framer.store, ids), step.level);
    assert Inv(s') by {
      ComposedOk(s, step);
      FramerMoves(s, framer, s'.contents);
    }
    assert SafeWith(s', ids, id) by {
      ComposedSafe(s, step, id);
    }
    StreamKindsIn(|ids|);
    TrackedStreamSafe(s', step.path, kinds, sent, step.stamp, id);
  }

  // ----- Packets of the crypto stream -----

  lemma {:induction false} AfterCryptoOk(s: System, space: nat)
    requires Inv(s) && 1 in s.framer.writers && space <= MAX_PACKET_SIZE
    requires D.CryptoFrame(s.framer.writers[1], space).Some?
    ensures var (w, f) := D.CryptoFrame(s.framer.writers[1], space).value; Inv(AfterCrypto(s, w, f)) && f.streamID == 1
  {
    var (w, f) := D.CryptoFrame(s.framer.writers[1], space).value;
    D.CryptoFrameOk(s.framer.writers[1], space, s.contents[1]);
    FP.AppendPartition(s.framer.store, s.contents, f);
    F.RefersMore(s.framer.queue, |s.framer.store|, |s.framer.store| + 1);
    var s' := AfterCrypto(s, w, f);
    FramerMoves(s, s'.framer, s'.contents);
  }

  lemma {:induction false} SendCryptoOk(s: System, step: Step)
    requires Inv(s) && step.SendCrypto? && step.path in s.paths
    ensures Inv(DoSendCrypto(s, step))
  {
    if 1 in s.framer.writers && step.space <= MAX_PACKET_SIZE && D.CryptoFrame(s.framer.writers[1], step.space).Some? {
      var (w, f) := D.CryptoFrame(s.framer.writers[1], step.space).value;
      AfterCryptoOk(s, step.space);
      TrackedOk(
        AfterCrypto(s, w, f), step.path, [Stream], Sent([|s.framer.store|], [f], step.level), step.stamp);
    }
  }

  lemma {:induction false} SendCryptoSafe(s: System, step: Step, id: nat)
    requires Inv(s) && !s.halted && step.SendCrypto? && step.path in s.paths && StreamSafe(s, id)
    ensures StreamSafe(DoSendCrypto(s, step), id)
  {
    if 1 in s.framer.writers && step.space <= MAX_PACKET_SIZE && D.CryptoFrame(s.framer.writers[1], step.space).Some? {
      var (w, f) := D.CryptoFrame(s.framer.writers[1], step.space).value;
      AfterCryptoOk(s, step.space);
      var s' := AfterCrypto(s, w, f);
      forall name: nat, b: nat | name < |s'.framer.store| && FP.Holds(s'.framer.store[name], id, b)
        ensures Safe(s', name, id, b) || name == |s.framer.store|
      {
        if name < |s.framer.store| {
          assert Safe(s, name, id, b);
        }
      }
      TrackedStreamSafe(s', step.path, [Stream], Sent([|s.framer.store|], [f], step.level), step.stamp, id);
    }
  }

  // ----- The application, acknowledgements and timers -----

  lemma {:induction false} EffectKeepsOk(s: System, path: nat, e: H.Effect)
    requires Inv(s) && path in s.paths && H.Departs(s.paths[path].handler, e)
    ensures Inv(DoEffect(s, path, e))
  {
    EffectOk(s.paths[path], e, s.framer.store);
  }

  lemma {:induction false} EffectKeepsSafe(s: System, path: nat, e: H.Effect, id: nat)
    requires Inv(s) && !s.halted && path in s.paths && H.Departs(s.paths[path].handler, e) && StreamSafe(s, id)
    ensures StreamSafe(DoEffect(s, path, e), id)
  {
    var s' := DoEffect(s, path, e);
    if !s'.halted {
      forall name: nat, b: nat | name < |s.framer.store| && FP.Holds(s.framer.store[name], id, b)
        ensures Safe(s', name, id, b)
      {
        if Answers(s.paths[path], name, id, b) {
          EffectAnswers(s.paths[path], e, s.framer.store, name, id, b);
        }
        OnePathSafe(s, path, OnEffect(s.paths[path], e), name, id, b);
      }
    }
  }

  lemma {:induction false} DuplicateKeeps(s: System, path: nat, packet: Packet, id: nat)
    requires Inv(s) && path in s.paths && packet in s.paths[path].handler.history
    ensures var s' := s.(paths := s.paths[path := Duplicated(s.paths[path], packet)]);
      Inv(s') && (StreamSafe(s, id) ==> StreamSafe(s', id))
  {
    var s' := s.(paths := s.paths[path := Duplicated(s.paths[path], packet)]);
    DuplicatedOk(s.paths[path], packet, s.framer.store);
    OnePathOk(s, path, Duplicated(s.paths[path], packet));
    if StreamSafe(s, id) && !s.halted {
      forall name: nat, b: nat | name < |s.framer.store| && FP.Holds(s.framer.store[name], id, b)
        ensures Safe(s', name, id, b)
      {
        if Answers(s.paths[path], name, id, b) {
          DuplicatedAnswers(s.paths[path], packet, name, id, b);
        }
        OnePathSafe(s, path, Duplicated(s.paths[path], packet), name, id, b);
      }
    }
  }

  /** Only the writers, windows or flags change, or paths and streams are added. */
  lemma {:induction false} NothingForgotten(s: System, s': System, id: nat)
    requires StreamSafe(s, id) && !s.halted
    requires s'.framer.store == s.framer.store && s'.framer.queue == s.framer.queue
    requires forall path :: path in s.paths ==> path in s'.paths && s'.paths[path] == s.paths[path]
    ensures StreamSafe(s', id)
  {
    forall name: nat, b: nat | name < |s.framer.store| && FP.Holds(s.framer.store[name], id, b)
      ensures Safe(s', name, id, b)
    {
      assert Safe(s, name, id, b);
      if name !in s.framer.queue {
        var q :| q in s.paths && Answers(s.paths[q], name, id, b);
        assert q in s'.paths && Answers(s'.paths[q], name, id, b);
      }
    }
  }

  lemma {:induction false} WriterOk(s: System, id: nat, w: W.State)
    requires Inv(s) && id in s.framer.writers && W.Handed(w, s.contents[id])
    ensures Inv(OnWriter(s, id, w))
  {
    FramerMoves(s, s.framer.(writers := s.framer.writers[id := w]), s.contents);
  }

  lemma {:induction false} OpenStreamOk(s: System, id: nat)
    requires Inv(s) && id !in s.contents
    ensures Inv(ApplyOutside(s, OpenStream(id)))
  {
    var contents := s.contents[id := []];
    forall i: nat, b: nat ensures FP.Hits(s.framer.store, i, b) == FP.Due(contents, i, b) {
      assert FP.Hits(s.framer.store, i, b) == FP.Due(s.contents, i, b);
    }
    FramerMoves(s, s.framer.(writers := s.framer.writers[id := W.INIT]), contents);
  }

  lemma {:induction false} NewPathOk(s: System, path: nat)
    requires Inv(s)
    ensures Inv(s.(paths := s.paths[path := NEW_PATH]))
  {
    OnePathOk(s, path, NEW_PATH);
  }

  predicate OnHandler(step: Step) {
    step.ReceiveAck? || step.ReceiveClosePath? || step.Alarm?
  }

  lemma {:induction false} HandlerKeeps(s: System, step: Step, id: nat)
    requires Inv(s) && !s.halted && OnHandler(step)
    ensures Inv(ApplyOutside(s, step)) && (StreamSafe(s, id) ==> StreamSafe(ApplyOutside(s, step), id))
  {
    if step.path in s.paths {
      var h := s.paths[step.path].handler;
      var e := match step
        case ReceiveAck(_, ack, withNumber, clock) => H.ReceivedAck(h, ack, withNumber, clock)
        case ReceiveClosePath(_, frame, withNumber) => H.ReceivedClosePath(h, frame, withNumber)
        case Alarm(_, clock, potentiallyFailed) => H.OnAlarm(h, clock, potentiallyFailed);
      assert H.Departs(h, e) by {
        match step
        case ReceiveAck(_, ack, withNumber, clock) => H.AckDeparts(h, ack, withNumber, clock);
        case ReceiveClosePath(_, frame, withNumber) => H.ClosePathDeparts(h, frame, withNumber);
        case Alarm(_, clock, potentiallyFailed) => H.AlarmDeparts(h, clock, potentiallyFailed);
      }
      assert ApplyOutside(s, step) == DoEffect(s, step.path, e);
      EffectKeepsOk(s, step.path, e);
      if StreamSafe(s, id) {
        EffectKeepsSafe(s, step.path, e, id);
      }
    }
  }

  lemma {:induction false} OutsideKeeps(s: System, step: Step, id: nat)
    requires Inv(s) && !s.halted
    ensures Inv(ApplyOutside(s, step)) && (StreamSafe(s, id) ==> StreamSafe(ApplyOutside(s, step), id))
  {
    if OnHandler(step) {
      HandlerKeeps(s, step, id);
    } else if step.Duplicate? {
      if step.path in s.paths && step.packet in s.paths[step.path].handler.history {
        DuplicateKeeps(s, step.path, step.packet, id);
      }
    } else {
      StreamsKeep(s, step);
      if StreamSafe(s, id) {
        NothingForgotten(s, ApplyOutside(s, step), id);
      }
    }
  }

  lemma {:induction false} StreamsKeep(s: System, step: Step)
    requires Inv(s) && !OnHandler(step) && !step.Duplicate?
    ensures Inv(ApplyOutside(s, step))
  {
    match step
    case OpenPath(path) => NewPathOk(s, path);
    case OpenStream(id) => if id !in s.contents { OpenStreamOk(s, id); }
    case WriteData(id, p) => if id in s.framer.writers { WriterOk(s, id, W.Write(s.framer.writers[id], p).0); }
    case CloseStream(id) => if id in s.framer.writers { WriterOk(s, id, W.Close(s.framer.writers[id])); }
    case FailStream(id) => if id in s.framer.writers { WriterOk(s, id, W.Fail(s.framer.writers[id])); }
    case _ =>
  }

  // ----- Retransmissions -----

  lemma {:induction false} TakenOffOk(s: System, path: nat)
    requires Inv(s) && path in s.paths
    ensures Inv(TakenOff(s, path))
  {
    DequeuedOk(s.paths[path], s.framer.store);
    OnePathOk(s, path, Dequeued(s.paths[path]));
  }

  lemma {:induction false} TakenOffSafe(s: System, path: nat, id: nat)
    requires Inv(s) && !s.halted && Ready(s, path) && StreamSafe(s, id)
    ensures SafeWith(TakenOff(s, path), NextSent(s, path).names, id)
  {
    var s' := TakenOff(s, path);
    forall name: nat, b: nat | name < |s.framer.store| && FP.Holds(s.framer.store[name], id, b)
      ensures Safe(s', name, id, b) || name in NextSent(s, path).names
    {
      if name !in NextSent(s, path).names {
        if Answers(s.paths[path], name, id, b) {
          DequeuedAnswers(s.paths[path], name, id, b);
        }
        OnePathSafe(s, path, Dequeued(s.paths[path]), name, id, b);
      }
    }
  }

  lemma {:induction false} RequeuedKeeps(s: System, names: seq<nat>, id: nat)
    requires Inv(s) && F.Refers(names, |s.framer.store|)
    ensures var s' := s.(framer := s.framer.(queue := s.framer.queue + names));
      Inv(s') && (SafeWith(s, names, id) ==> StreamSafe(s', id))
  {
    var s' := s.(framer := s.framer.(queue := s.framer.queue + names));
    F.RefersAppend(s.framer.queue, names, |s.framer.store|);
    FramerMoves(s, s'.framer, s.contents);
    if SafeWith(s, names, id) {
      forall name: nat, b: nat | name < |s.framer.store| && FP.Holds(s.framer.store[name], id, b)
        ensures Safe(s', name, id, b)
      {
        assert Safe(s, name, id, b) || name in names;
      }
    }
  }

  /** The packet that is dropped held a byte that nothing else answers for. */
  ghost predicate Loses(s: System, step: Step, id: nat) {
    && !s.halted && step.Retransmit? && Ready(s, step.path) && Drops(s, step)
    && exists name: nat, b: nat ::
      && name in NextSent(s, step.path).names && name < |s.framer.store| && FP.Holds(s.framer.store[name], id, b)
      && !Safe(TakenOff(s, step.path), name, id, b)
  }

  lemma {:induction false} NextOk(s: System, path: nat)
    requires Inv(s) && Ready(s, path)
    ensures SentOk(NextSent(s, path), s.framer.store)
    ensures NextSent(s, path).names == [] || Stream in Next(s.paths[path]).frames
  {
    assert PathOk(s.paths[path], s.framer.store);
    assert Next(s.paths[path]) in s.paths[path].handler.queue;
  }

  lemma {:induction false} RetransmitOk(s: System, step: Step)
    requires Inv(s) && step.Retransmit? && Ready(s, step.path)
    ensures F.Refers(NextSent(s, step.path).names, |s.framer.store|) && Inv(DoRetransmit(s, step))
  {
    var p, sent, s' := Next(s.paths[step.path]), NextSent(s, step.path), TakenOff(s, step.path);
    NextOk(s, step.path);
    TakenOffOk(s, step.path);
    if sent.level == ForwardSecure {
      RequeuedKeeps(s', sent.names, 0);
    } else if !Drops(s, step) {
      WritesOk(s.framer.store, sent.names, sent.level);
      TrackedOk(
        s', step.target.value, [StopWaiting] + p.frames,
        Sent(sent.names, F.Frames(s.framer.store, sent.names), sent.level), step.stamp);
    }
  }

  lemma {:induction false} RetransmitSafe(s: System, step: Step, id: nat)
    requires Inv(s) && !s.halted && step.Retransmit? && Ready(s, step.path) && StreamSafe(s, id)
    requires F.Refers(NextSent(s, step.path).names, |s.framer.store|)
    ensures StreamSafe(DoRetransmit(s, step), id) <==> !Loses(s, step, id)
  {
    var p, sent, s' := Next(s.paths[step.path]), NextSent(s, step.path), TakenOff(s, step.path);
    NextOk(s, step.path);
    TakenOffOk(s, step.path);
    TakenOffSafe(s, step.path, id);
    if sent.level == ForwardSecure {
      RequeuedKeeps(s', sent.names, id);
    } else if !Drops(s, step) {
      TrackedStreamSafe(
        s', step.target.value, [StopWaiting] + p.frames,
        Sent(sent.names, F.Frames(s.framer.store, sent.names), sent.level), step.stamp, id);
    }
  }

  // ----- Whole runs -----

  lemma {:induction false} ApplyOk(s: System, step: Step)
    requires Inv(s)
    ensures Inv(Apply(s, step))
  {
    if !s.halted {
      match step
      case SendData(path, _, _, _, _, _, _) => if path in s.paths { SendDataOk(s, step); }
      case SendCrypto(path, _, _, _) => if path in s.paths { SendCryptoOk(s, step); }
      case Retransmit(path, _, _) => if Ready(s, path) { RetransmitOk(s, step); }
      case _ => OutsideKeeps(s, step, 0);
    }
  }

  /** A step forgets a byte of the stream if and only if it drops a packet with a byte that nothing else holds. */
  lemma {:induction false} ApplySafe(s: System, step: Step, id: nat)
    requires Inv(s) && StreamSafe(s, id)
    ensures StreamSafe(Apply(s, step), id) <==> !Loses(s, step, id)
  {
    if !s.halted {
      match step
      case SendData(path, _, _, _, _, _, _) => if path in s.paths { SendDataSafe(s, step, id); }
      case SendCrypto(path, _, _, _) => if path in s.paths { SendCryptoSafe(s, step, id); }
      case Retransmit(path, _, _) => if Ready(s, path) { RetransmitOk(s, step); RetransmitSafe(s, step, id); }
      case _ => OutsideKeeps(s, step, id);
    }
  }

  ghost function Run(s: System, steps: seq<Step>): (end: System)
    requires Inv(s)
    ensures Inv(end)
    decreases |steps|
  {
    if steps == [] then s
    else
      ApplyOk(s, steps[0]);
      Run(Apply(s, steps[0]), steps[1..])
  }

  /** In every state of the run. */
  ghost predicate AlwaysSafe(s: System, steps: seq<Step>, id: nat)
    requires Inv(s)
    decreases |steps|
  {
    if steps == [] then StreamSafe(s, id)
    else
      ApplyOk(s, steps[0]);
      StreamSafe(s, id) && AlwaysSafe(Apply(s, steps[0]), steps[1..], id)
  }

  ghost predicate NeverLoses(s: System, steps: seq<Step>, id: nat)
    requires Inv(s)
    decreases |steps|
  {
    if steps == [] then true
    else
      ApplyOk(s, steps[0]);
      !Loses(s, steps[0], id) && NeverLoses(Apply(s, steps[0]), steps[1..], id)
  }

  lemma {:induction false} RunSafe(s: System, steps: seq<Step>, id: nat)
    requires Inv(s) && StreamSafe(s, id)
    ensures AlwaysSafe(s, steps, id) <==> NeverLoses(s, steps, id)
    decreases |steps|
  {
    if steps != [] {
      ApplyOk(s, steps[0]);
      ApplySafe(s, steps[0], id);
      if !Loses(s, steps[0], id) {
        RunSafe(Apply(s, steps[0]), steps[1..], id);
      }
    }
  }
}
