/**
  Streams end to end: the sender's streams, framer and packer, a network that loses, repeats and reorders
  packets, and the receiver's unpacker, sorters and reads.

  A packet stays available to the network for ever. A frame object that was put into a packet may be queued for
  retransmission at any time and any number of times, whether it was lost or not. The order of streams, the
  space for STREAM frames in a packet, windows and the points at which the application writes and reads are
  arbitrary. The STREAM frames of a packet stand for the packet.
 */
module StreamDelivery {
  import opened Basics
  import opened IdLists
  import opened ByteOrder
  import opened StreamFrames
  import Codec = StreamFrameCodec
  import F = StreamFramer
  import FC = FlowControlManager
  import P = PacketPacker
  import U = PacketUnpacker
  import S = StreamFrameSorter
  import R = ReceiveStream
  import W = SendStream

  /** `contents` is what each stream has handed out; `arrived` are the frames that its reader has taken. */
  datatype System = System(
    wire: Order,
    negotiated: FC.Negotiated,
    framer: F.State,
    contents: F.Contents,
    network: set<seq<byte>>,
    readers: map<nat, R.State>,
    arrived: map<nat, seq<StreamFrame>>,
    delivered: map<nat, seq<byte>>,
    halted: bool
  )

  /** What every state of a run satisfies, whatever is in the packets. */
  ghost predicate Sane(s: System) {
    && F.Refers(s.framer.queue, |s.framer.store|)
    && forall id :: id in s.readers ==> S.GapsFrom(-1, s.readers[id].sorter.gaps)
  }

  function Init(wire: Order, negotiated: FC.Negotiated, window: nat, maxIncrement: nat): (s: System)
    ensures Sane(s)
  {
    System(
      wire, negotiated, F.State(map[], FC.InitialState(window, maxIncrement), [], [], []), map[], {},
      map[], map[], map[], false)
  }

  datatype Step =
    | OpenStream(id: nat, contributes: bool, window: nat, maxIncrement: nat)
    | WriteData(id: nat, p: seq<byte>)
    | CloseStream(id: nat)
    | FailStream(id: nat)
    | Negotiate(negotiated: FC.Negotiated)
    | UpdatePeerWindow(id: nat, offset: nat)
    | Emit(order: seq<nat>, space: nat)
    | EmitCrypto(space: nat)
    | Requeue(name: nat)
    | Deliver(packet: seq<byte>)
    | ReadData(id: nat, n: nat)

  // ----- The sender's steps -----

  /** Both ends know the stream from now on. Stream identifiers have four bytes. */
  function DoOpen(s: System, id: nat, contributes: bool, window: nat, maxIncrement: nat): (s': System)
    requires Sane(s)
    ensures Sane(s')
  {
    if id in s.contents || id >= 0x1_0000_0000 then s
    else s.(
      framer := s.framer.(
        writers := s.framer.writers[id := W.INIT],
        fc := FC.NewStream(s.framer.fc, id, contributes, window, maxIncrement)),
      contents := s.contents[id := []],
      readers := s.readers[id := R.Init()],
      arrived := s.arrived[id := []],
      delivered := s.delivered[id := []])
  }

  /** The application acts on its end of a stream. */
  function OnWriter(s: System, id: nat, w: W.State): (s': System)
    requires Sane(s)
    ensures Sane(s')
  {
    s.(framer := s.framer.(writers := s.framer.writers[id := w]))
  }

  /** Offsets have eight bytes. */
  predicate TooLong(contents: F.Contents) {
    exists id | id in contents :: |contents[id]| > MAX_U64
  }

  /** A packet that cannot be written, or is too large, closes the connection. */
  function SendPacket(s: System, fs: seq<StreamFrame>, space: nat): (s': System)
    requires Sane(s)
    ensures Sane(s')
  {
    match P.DataBytes(s.wire, fs)
    case None => s.(halted := true)
    case Some(packet) =>
      if |packet| > space || TooLong(s.contents) then s.(halted := true)
      else s.(network := s.network + {packet})
  }

  /** The state of the sender once a packet is filled. */
  function Filled(s: System, order: seq<nat>, space: nat): (s': System)
    requires Sane(s)
    ensures Sane(s')
  {
    s.(
      framer := P.ComposeData(s.framer, order, space + 2, s.negotiated).0,
      contents := F.ContentsAfter(s.framer, order, space + 2, s.negotiated, s.contents))
  }

  /** `space` bytes are left for STREAM frames once the control frames are in the packet. */
  function DoEmit(s: System, order: seq<nat>, space: nat): (s': System)
    requires Sane(s)
    ensures Sane(s')
  {
    var ids := P.ComposeData(s.framer, order, space + 2, s.negotiated).1;
    var s' := Filled(s, order, space);
    if ids == [] then s' else SendPacket(s', F.Frames(s'.framer.store, ids), space)
  }

  /** Data of the crypto stream go into a packet of their own, without flow control. */
  function CryptoFrame(w: W.State, space: nat): Option<(W.State, StreamFrame)> {
    var header := Codec.MinLength(StreamFrame(1, false, false, w.offset, []));
    if W.LenOfDataForWriting(w) == 0 || space <= header then None
    else
      var (w', data) := W.GetDataForWriting(w, space - header);
      Some((w', StreamFrame(1, false, false, w.offset, data.value)))
  }

  function DoEmitCrypto(s: System, space: nat): (s': System)
    requires Sane(s)
    ensures Sane(s')
  {
    if 1 !in s.framer.writers then s
    else
      match CryptoFrame(s.framer.writers[1], space)
      case None => s
      case Some((w, f)) => SendPacket(AfterCrypto(s, w, f), [f], space)
  }

  function AfterCrypto(s: System, w: W.State, f: StreamFrame): (s': System)
    requires Sane(s)
    ensures Sane(s')
  {
    F.RefersMore(s.framer.queue, |s.framer.store|, |s.framer.store| + 1);
    s.(
      framer := s.framer.(writers := s.framer.writers[1 := w], store := s.framer.store + [f]),
      contents := F.Extended(s.contents, Some(f)))
  }

  function DoRequeue(s: System, name: nat): (s': System)
    requires Sane(s)
    ensures Sane(s')
  {
    F.RefersAppend(s.framer.queue, [name], |s.framer.store|);
    if name < |s.framer.store| then s.(framer := s.framer.(queue := s.framer.queue + [name])) else s
  }

  // ----- The receiver's steps -----

  /** A frame that the sorter refuses closes the connection; frames of unknown streams are ignored. */
  function Receive(s: System, f: StreamFrame): (s': System)
    requires Sane(s)
    ensures Sane(s')
  {
    if f.streamID !in s.readers || f.streamID !in s.arrived then s
    else if f.End() > MAX_U64 then s.(halted := true)
    else
      var (reader, ok) := R.AddFrame(s.readers[f.streamID], f);
      if !ok then s.(halted := true)
      else
        S.PushGaps(s.readers[f.streamID].sorter, f);
        s.(
          readers := s.readers[f.streamID := reader],
          arrived := s.arrived[f.streamID := s.arrived[f.streamID] + [f]])
  }

  function ReceiveAll(s: System, fs: seq<StreamFrame>): (s': System)
    requires Sane(s)
    ensures Sane(s')
    decreases |fs|
  {
    if fs == [] || s.halted then s else ReceiveAll(Receive(s, fs[0]), fs[1..])
  }

  /** A packet that cannot be read closes the connection. */
  function DoDeliver(s: System, packet: seq<byte>): (s': System)
    requires Sane(s)
    ensures Sane(s')
  {
    match U.UnpackFrames(s.wire, packet, true)
    case Err(_) => s.(halted := true)
    case Ok(fs) => ReceiveAll(s, fs)
  }

  function DoRead(s: System, id: nat, n: nat): (s': System)
    requires Sane(s)
    ensures Sane(s')
  {
    if id !in s.readers || id !in s.delivered then s
    else
      R.ReadKeepsGaps(s.readers[id], n);
      var r := R.Read(s.readers[id], n);
      s.(readers := s.readers[id := r.st], delivered := s.delivered[id := s.delivered[id] + r.data])
  }

  // ----- Whole runs -----

  function ApplySender(s: System, step: Step): (s': System)
    requires Sane(s)
    ensures Sane(s')
  {
    match step
    case OpenStream(id, contributes, window, maxIncrement) => DoOpen(s, id, contributes, window, maxIncrement)
    case WriteData(id, p) =>
      if id in s.framer.writers then OnWriter(s, id, W.Write(s.framer.writers[id], p).0) else s
    case CloseStream(id) => if id in s.framer.writers then OnWriter(s, id, W.Close(s.framer.writers[id])) else s
    case FailStream(id) => if id in s.framer.writers then OnWriter(s, id, W.Fail(s.framer.writers[id])) else s
    case Negotiate(negotiated) => s.(negotiated := negotiated)
    case UpdatePeerWindow(id, offset) => s.(framer := s.framer.(fc := FC.UpdatePeerWindow(s.framer.fc, id, offset).0))
    case Emit(order, space) => if space <= MAX_PACKET_SIZE then DoEmit(s, order, space) else s
    case EmitCrypto(space) => if space <= MAX_PACKET_SIZE then DoEmitCrypto(s, space) else s
    case Requeue(name) => DoRequeue(s, name)
    case _ => s
  }

  function Apply(s: System, step: Step): (s': System)
    requires Sane(s)
    ensures Sane(s')
  {
    if s.halted then s
    else match step
      case Deliver(packet) => if packet in s.network then DoDeliver(s, packet) else s
      case ReadData(id, n) => DoRead(s, id, n)
      case _ => ApplySender(s, step)
  }

  function Run(s: System, steps: seq<Step>): (end: System)
    requires Sane(s)
    ensures Sane(end)
    decreases |steps|
  {
    if steps == [] then s else Run(Apply(s, steps[0]), steps[1..])
  }

  // ----- One reader -----

  ghost predicate HasArrived(fs: seq<StreamFrame>, b: nat) {
    exists i :: 0 <= i < |fs| && S.Covers(fs[i], b)
  }

  /** The gaps are exactly the bytes in no frame that has arrived. */
  ghost predicate GapsExact(gaps: seq<ByteInterval>, arrived: seq<StreamFrame>) {
    forall b: nat :: S.Missing(gaps, b) <==> b < MAX_U64 && !HasArrived(arrived, b)
  }

  /** What the reader holds and has passed on are parts of the content, and its position is within the head frame. */
  ghost predicate ReaderOk(reader: R.State, arrived: seq<StreamFrame>, delivered: seq<byte>, content: seq<byte>) {
    && R.Good(reader, content)
    && R.Positioned(reader)
    && GapsExact(reader.sorter.gaps, arrived)
    && delivered == content[..reader.readOffset]
  }

  lemma {:induction false} ArrivedMore(fs: seq<StreamFrame>, f: StreamFrame, b: nat)
    ensures HasArrived(fs + [f], b) <==> HasArrived(fs, b) || S.Covers(f, b)
  {
    var all := fs + [f];
    assert all[|fs|] == f;
    if HasArrived(fs, b) {
      var i :| 0 <= i < |fs| && S.Covers(fs[i], b);
      assert all[i] == fs[i];
    }
  }

  lemma {:induction false} GapsStayExact(
    gaps: seq<ByteInterval>, gaps': seq<ByteInterval>, fs: seq<StreamFrame>, f: StreamFrame)
    requires GapsExact(gaps, fs)
    requires forall b: nat :: S.Missing(gaps', b) <==> S.Missing(gaps, b) && !S.Covers(f, b)
    ensures GapsExact(gaps', fs + [f])
  {
    forall b: nat ensures S.Missing(gaps', b) <==> b < MAX_U64 && !HasArrived(fs + [f], b) {
      ArrivedMore(fs, f, b);
    }
  }

  /** A frame with data that the sorter takes does not reach the largest offset. */
  lemma {:induction false} TakenIsStorable(reader: R.State, f: StreamFrame)
    requires R.Positioned(reader) && f.End() <= MAX_U64 && R.AddFrame(reader, f).1
    ensures S.Storable(f)
  {
    if f.data != [] && f.End() == MAX_U64 {
      S.LargestOffsetRefused(reader.sorter, f);
    }
  }

  /** A frame that arrives keeps all this: an empty FIN stands at the end, where no frame to be read starts. */
  lemma {:induction false} AddKeeps(
    reader: R.State, arrived: seq<StreamFrame>, delivered: seq<byte>, content: seq<byte>, f: StreamFrame)
    requires ReaderOk(reader, arrived, delivered, content) && Carries(f, content) && f.End() <= MAX_U64
    requires f.data == [] ==> f.offset == |content|
    requires R.AddFrame(reader, f).1
    ensures ReaderOk(R.AddFrame(reader, f).0, arrived + [f], delivered, content)
  {
    TakenIsStorable(reader, f);
    var sorter := reader.sorter;
    assert f.data == [] ==> !S.OnChain(sorter.queued, sorter.readPosition, sorter.gaps, f.offset) by {
      if S.OnChain(reader.sorter.queued, reader.sorter.readPosition, reader.sorter.gaps, f.offset) {
        S.ChainWithin(reader.sorter.queued, reader.sorter.readPosition, reader.sorter.gaps, f.offset, content);
      }
    }
    R.AddIsGood(reader, f, content);
    R.AddKeepsPosition(reader, f);
    S.PushRefines(reader.sorter, f);
    GapsStayExact(reader.sorter.gaps, R.AddFrame(reader, f).0.sorter.gaps, arrived, f);
  }

  lemma {:induction false} ReadKeeps(
    reader: R.State, arrived: seq<StreamFrame>, delivered: seq<byte>, content: seq<byte>, n: nat)
    requires ReaderOk(reader, arrived, delivered, content)
    ensures var r := R.Read(reader, n);
      ReaderOk(r.st, arrived, delivered + r.data, content) && r.ending != R.BadPosition
  {
    R.ReadIsNext(reader, n, content);
    R.ReadKeepsPosition(reader, n);
    R.ReadKeepsGaps(reader, n);
    R.JoinSlices(content, 0, reader.readOffset, R.Read(reader, n).st.readOffset);
  }

  lemma {:induction false} ContentGrows(
    reader: R.State, arrived: seq<StreamFrame>, delivered: seq<byte>, content: seq<byte>, content': seq<byte>)
    requires ReaderOk(reader, arrived, delivered, content) && content <= content'
    ensures ReaderOk(reader, arrived, delivered, content')
  {
    R.MoreContent(reader, content, content');
    assert content'[..reader.readOffset] == content[..reader.readOffset];
  }

  // ----- The invariant -----

  ghost predicate ReceiverOk(s: System) {
    forall id :: id in s.readers ==>
      && id in s.arrived && id in s.delivered && id in s.contents
      && ReaderOk(s.readers[id], s.arrived[id], s.delivered[id], s.contents[id])
  }

  ghost predicate FramesOk(fs: seq<StreamFrame>, writers: map<nat, W.State>, contents: F.Contents) {
    forall i :: 0 <= i < |fs| ==> F.FrameOk(fs[i], writers, contents)
  }

  /** A packet can be read, and its frames carry what their streams handed out. */
  ghost predicate PacketOk(packet: seq<byte>, wire: Order, writers: map<nat, W.State>, contents: F.Contents) {
    var r := U.UnpackFrames(wire, packet, true);
    r.Ok? && FramesOk(r.value, writers, contents)
  }

  ghost predicate NetworkOk(s: System) {
    forall packet :: packet in s.network ==> PacketOk(packet, s.wire, s.framer.writers, s.contents)
  }

  ghost predicate SendingOk(s: System) {
    && F.SenderOk(s.framer.writers, s.contents)
    && F.StoreOk(s.framer.store, s.framer.writers, s.contents)
    && forall id :: id in s.contents ==> id < 0x1_0000_0000
  }

  ghost predicate Inv(s: System) {
    Sane(s) && SendingOk(s) && NetworkOk(s) && ReceiverOk(s)
  }

  // ----- Every step keeps it -----

  /** The sender moves on; packets on their way and readers are not disturbed. */
  lemma {:induction false} SenderMoves(s: System, s': System)
    requires Inv(s) && Sane(s') && SendingOk(s')
    requires s'.readers == s.readers && s'.arrived == s.arrived && s'.delivered == s.delivered
    requires s'.network == s.network && s'.wire == s.wire
    requires F.Grows(s.framer.writers, s.contents, s'.framer.writers, s'.contents)
    ensures Inv(s')
  {
    forall packet | packet in s'.network ensures PacketOk(packet, s'.wire, s'.framer.writers, s'.contents) {
      assert PacketOk(packet, s.wire, s.framer.writers, s.contents);
      var fs := U.UnpackFrames(s.wire, packet, true).value;
      forall i | 0 <= i < |fs| ensures F.FrameOk(fs[i], s'.framer.writers, s'.contents) {
        F.FrameStaysOk(fs[i], s.framer.writers, s.contents, s'.framer.writers, s'.contents);
      }
    }
    forall id | id in s'.readers ensures ReaderOk(s.readers[id], s.arrived[id], s.delivered[id], s'.contents[id]) {
      ContentGrows(s.readers[id], s.arrived[id], s.delivered[id], s.contents[id], s'.contents[id]);
    }
  }

  lemma {:induction false} WriterKeeps(s: System, id: nat, w: W.State)
    requires Inv(s) && id in s.framer.writers
    requires W.Handed(w, s.contents[id]) && (s.framer.writers[id].finSent ==> w.finSent)
    ensures Inv(OnWriter(s, id, w))
  {
    var s' := OnWriter(s, id, w);
    F.StoreStaysOk(s.framer.store, s.framer.writers, s.contents, s'.framer.writers, s.contents);
    SenderMoves(s, s');
  }

  /** Frames that are read back as they are keep the network in order. */
  lemma {:induction false} SendPacketKeeps(s: System, fs: seq<StreamFrame>, space: nat)
    requires Inv(s) && FramesOk(fs, s.framer.writers, s.contents)
    requires !TooLong(s.contents) ==>
      P.DataBytes(s.wire, fs).Some? && U.UnpackFrames(s.wire, P.DataBytes(s.wire, fs).value, true) == Ok(fs)
    ensures Inv(SendPacket(s, fs, space))
  {
  }

  lemma {:induction false} NamedOk(store: F.Store, ids: seq<nat>, writers: map<nat, W.State>, contents: F.Contents)
    requires F.Refers(ids, |store|) && F.StoreOk(store, writers, contents)
    ensures FramesOk(F.Frames(store, ids), writers, contents)
  {
    if ids != [] {
      NamedOk(store, ids[1..], writers, contents);
    }
  }

  lemma {:induction false} OkIsSendable(fs: seq<StreamFrame>, writers: map<nat, W.State>, contents: F.Contents)
    requires FramesOk(fs, writers, contents) && !TooLong(contents)
    requires forall id :: id in contents ==> id < 0x1_0000_0000
    ensures U.AllSendable(fs)
  {
    if fs != [] {
      assert F.FrameOk(fs[0], writers, contents);
      OkIsSendable(fs[1..], writers, contents);
    }
  }

  /** Length fields do not matter for what a frame carries. */
  lemma {:induction false} ClearedOk(store: F.Store, ids: seq<nat>, writers: map<nat, W.State>, contents: F.Contents)
    requires F.Refers(ids, |store|) && F.StoreOk(store, writers, contents)
    ensures F.StoreOk(P.ClearLast(store, ids), writers, contents)
  {
    if ids != [] {
      P.LastRefers(ids, |store|);
      assert F.FrameOk(store[P.Last(ids)], writers, contents);
    }
  }

  lemma {:induction false} FilledKeeps(s: System, order: seq<nat>, space: nat)
    requires Inv(s)
    ensures Inv(Filled(s, order, space))
  {
    var s' := Filled(s, order, space);
    var (popped, ids) := F.PopStreamFrames(s.framer, order, space + 2, s.negotiated);
    F.PopOk(s.framer, order, space + 2, s.negotiated, s.contents);
    F.PoppedFrames(s.framer, order, space + 2, s.negotiated);
    ClearedOk(popped.store, ids, popped.writers, s'.contents);
    F.ContentsKeys(s.contents, F.NewFrames(s.framer, order, space + 2, s.negotiated).frames);
    SenderMoves(s, s');
  }

  /** An earlier entry of the packet is the same object as the last one. */
  predicate Repeats(s: System, order: seq<nat>, space: nat)
    requires Sane(s)
  {
    P.SharesLast(P.ComposeData(s.framer, order, space + 2, s.negotiated).1)
  }

  lemma {:induction false} SendNamedKeeps(s: System, ids: seq<nat>, space: nat)
    requires Inv(s) && F.Refers(ids, |s.framer.store|)
    requires var fs := F.Frames(s.framer.store, ids);
      U.AllSendable(fs) ==>
        P.DataBytes(s.wire, fs).Some? && U.UnpackFrames(s.wire, P.DataBytes(s.wire, fs).value, true) == Ok(fs)
    ensures Inv(SendPacket(s, F.Frames(s.framer.store, ids), space))
  {
    var fs := F.Frames(s.framer.store, ids);
    NamedOk(s.framer.store, ids, s.framer.writers, s.contents);
    if !TooLong(s.contents) {
      OkIsSendable(fs, s.framer.writers, s.contents);
    }
    SendPacketKeeps(s, fs, space);
  }

  /** Filling a packet that does not repeat its last frame keeps every invariant. */
  lemma {:induction false} EmitKeeps(s: System, order: seq<nat>, space: nat)
    requires Inv(s) && !Repeats(s, order, space) && space <= MAX_PACKET_SIZE
    ensures Inv(DoEmit(s, order, space))
  {
    FilledKeeps(s, order, space);
    U.ComposedReadBack(s.wire, s.framer, order, space + 2, s.negotiated);
    SendNamedKeeps(Filled(s, order, space), P.ComposeData(s.framer, order, space + 2, s.negotiated).1, space);
  }

  lemma {:induction false} CryptoFrameOk(w: W.State, space: nat, content: seq<byte>)
    requires W.Handed(w, content) && CryptoFrame(w, space).Some? && space <= MAX_PACKET_SIZE
    ensures var (w', f) := CryptoFrame(w, space).value;
      && W.Handed(w', content + f.data) && !w.finSent && !w'.finSent
      && Carries(f, content + f.data) && f.End() == |content + f.data|
      && f.streamID == 1 && !f.fin && !f.dataLenPresent && 0 < |f.data| <= MAX_PACKET_SIZE
  {
    F.AppendCarries(CryptoFrame(w, space).value.1, content);
  }

  lemma {:induction false} AfterCryptoKeeps(s: System, w: W.State, f: StreamFrame)
    requires Inv(s) && 1 in s.framer.writers && f.streamID == 1
    requires !s.framer.writers[1].finSent && !w.finSent
    requires W.Handed(w, s.contents[1] + f.data)
    requires Carries(f, s.contents[1] + f.data) && !f.fin && f.data != []
    ensures Inv(AfterCrypto(s, w, f))
    ensures FramesOk([f], AfterCrypto(s, w, f).framer.writers, AfterCrypto(s, w, f).contents)
  {
    var s' := AfterCrypto(s, w, f);
    F.StoreStaysOk(s.framer.store, s.framer.writers, s.contents, s'.framer.writers, s'.contents);
    SenderMoves(s, s');
  }

  lemma {:induction false} EmitCryptoKeeps(s: System, space: nat)
    requires Inv(s) && space <= MAX_PACKET_SIZE
    ensures Inv(DoEmitCrypto(s, space))
  {
    if 1 in s.framer.writers && CryptoFrame(s.framer.writers[1], space).Some? {
      var (w, f) := CryptoFrame(s.framer.writers[1], space).value;
      CryptoFrameOk(s.framer.writers[1], space, s.contents[1]);
      AfterCryptoKeeps(s, w, f);
      var s' := AfterCrypto(s, w, f);
      if !TooLong(s'.contents) {
        assert [f][1..] == [];
        U.UnpackWritten(s.wire, [f], true);
      }
      SendPacketKeeps(s', [f], space);
    }
  }

  lemma {:induction false} NewReaderOk()
    ensures ReaderOk(R.Init(), [], [], [])
  {
    var gaps := S.Init().gaps;
    assert gaps[1..] == [];
  }

  /** The sender's side of a new stream. */
  lemma {:induction false} OpenWriterKeeps(s: System, id: nat, fc: FC.State)
    requires Inv(s) && id !in s.contents && id < 0x1_0000_0000
    ensures Inv(s.(
      framer := s.framer.(writers := s.framer.writers[id := W.INIT], fc := fc), contents := s.contents[id := []]))
  {
    var writers, contents := s.framer.writers[id := W.INIT], s.contents[id := []];
    F.StoreStaysOk(s.framer.store, s.framer.writers, s.contents, writers, contents);
    SenderMoves(s, s.(framer := s.framer.(writers := writers, fc := fc), contents := contents));
  }

  lemma {:induction false} OpenReaderKeeps(s: System, id: nat)
    requires Inv(s) && id in s.contents && s.contents[id] == []
    ensures Inv(s.(
      readers := s.readers[id := R.Init()], arrived := s.arrived[id := []], delivered := s.delivered[id := []]))
  {
    NewReaderOk();
  }

  lemma {:induction false} OpenKeeps(s: System, id: nat, contributes: bool, window: nat, maxIncrement: nat)
    requires Inv(s)
    ensures Inv(DoOpen(s, id, contributes, window, maxIncrement))
  {
    if id !in s.contents && id < 0x1_0000_0000 {
      var fc := FC.NewStream(s.framer.fc, id, contributes, window, maxIncrement);
      OpenWriterKeeps(s, id, fc);
      OpenReaderKeeps(
        s.(
          framer := s.framer.(writers := s.framer.writers[id := W.INIT], fc := fc), contents := s.contents[id := []]),
        id);
    }
  }

  lemma {:induction false} ReaderMoves(
    s: System, id: nat, reader: R.State, arrived: seq<StreamFrame>, delivered: seq<byte>)
    requires Inv(s) && id in s.readers && S.GapsFrom(-1, reader.sorter.gaps)
    requires id in s.contents && ReaderOk(reader, arrived, delivered, s.contents[id])
    ensures Inv(s.(
      readers := s.readers[id := reader], arrived := s.arrived[id := arrived],
      delivered := s.delivered[id := delivered]))
  {
  }

  lemma {:induction false} ReceiveKeeps(s: System, f: StreamFrame)
    requires Inv(s) && F.FrameOk(f, s.framer.writers, s.contents)
    ensures Inv(Receive(s, f)) && Receive(s, f).framer == s.framer && Receive(s, f).contents == s.contents
  {
    var id := f.streamID;
    if id in s.readers && f.End() <= MAX_U64 && R.AddFrame(s.readers[id], f).1 {
      AddKeeps(s.readers[id], s.arrived[id], s.delivered[id], s.contents[id], f);
      ReaderMoves(s, id, R.AddFrame(s.readers[id], f).0, s.arrived[id] + [f], s.delivered[id]);
      assert s.delivered[id := s.delivered[id]] == s.delivered;
    }
  }

  lemma {:induction false} ReceiveAllKeeps(s: System, fs: seq<StreamFrame>)
    requires Inv(s) && FramesOk(fs, s.framer.writers, s.contents)
    ensures Inv(ReceiveAll(s, fs))
    decreases |fs|
  {
    if fs != [] && !s.halted {
      ReceiveKeeps(s, fs[0]);
      ReceiveAllKeeps(Receive(s, fs[0]), fs[1..]);
    }
  }

  /** Packets that arrive keep the sorters valid and hand over the sender's bytes only. */
  lemma {:induction false} DeliverKeeps(s: System, packet: seq<byte>)
    requires Inv(s) && packet in s.network
    ensures Inv(DoDeliver(s, packet))
  {
    assert PacketOk(packet, s.wire, s.framer.writers, s.contents);
    ReceiveAllKeeps(s, U.UnpackFrames(s.wire, packet, true).value);
  }

  lemma {:induction false} DoReadKeeps(s: System, id: nat, n: nat)
    requires Inv(s)
    ensures Inv(DoRead(s, id, n))
  {
    if id in s.readers {
      ReadKeeps(s.readers[id], s.arrived[id], s.delivered[id], s.contents[id], n);
      var r := R.Read(s.readers[id], n);
      ReaderMoves(s, id, r.st, s.arrived[id], s.delivered[id] + r.data);
      assert s.arrived[id := s.arrived[id]] == s.arrived;
    }
  }

  lemma {:induction false} ApplicationKeeps(s: System, step: Step)
    requires Inv(s) && (step.WriteData? || step.CloseStream? || step.FailStream?)
    ensures Inv(ApplySender(s, step))
  {
    if step.id in s.framer.writers {
      var w := s.framer.writers[step.id];
      match step
      case WriteData(id, p) => WriterKeeps(s, id, W.Write(w, p).0);
      case CloseStream(id) => WriterKeeps(s, id, W.Close(w));
      case FailStream(id) => WriterKeeps(s, id, W.Fail(w));
    }
  }

  /** The step does not write a packet that repeats its last frame. */
  predicate Separate(s: System, step: Step)
    requires Sane(s)
  {
    step.Emit? && step.space <= MAX_PACKET_SIZE ==> !Repeats(s, step.order, step.space)
  }

  /** Any frame object that was sent may be queued again, by its name, at any time and any number of times. */
  lemma {:induction false} RequeueKeeps(s: System, name: nat)
    requires Inv(s) && name < |s.framer.store|
    ensures var s' := DoRequeue(s, name);
      && Inv(s') && s'.framer.store == s.framer.store && s'.framer.queue == s.framer.queue + [name]
      && FramesOk(F.Frames(s'.framer.store, s'.framer.queue), s'.framer.writers, s'.contents)
  {
    var s' := DoRequeue(s, name);
    NamedOk(s'.framer.store, s'.framer.queue, s'.framer.writers, s'.contents);
  }

  /** The steps that leave streams and frames alone. */
  lemma {:induction false} OtherKeeps(s: System, step: Step)
    requires Inv(s) && (step.Negotiate? || step.UpdatePeerWindow? || step.Requeue? || step.Deliver? || step.ReadData?)
    ensures Inv(ApplySender(s, step))
  {
    if step.Requeue? && step.name < |s.framer.store| {
      RequeueKeeps(s, step.name);
    }
  }

  lemma {:induction false} ApplySenderKeeps(s: System, step: Step)
    requires Inv(s) && Separate(s, step)
    ensures Inv(ApplySender(s, step))
  {
    match step
    case OpenStream(id, contributes, window, maxIncrement) => OpenKeeps(s, id, contributes, window, maxIncrement);
    case WriteData(_, _) => ApplicationKeeps(s, step);
    case CloseStream(_) => ApplicationKeeps(s, step);
    case FailStream(_) => ApplicationKeeps(s, step);
    case Emit(order, space) =>
      if space <= MAX_PACKET_SIZE {
        EmitKeeps(s, order, space);
      }
    case EmitCrypto(space) =>
      if space <= MAX_PACKET_SIZE {
        EmitCryptoKeeps(s, space);
      }
    case _ => OtherKeeps(s, step);
  }

  lemma {:induction false} ApplyKeeps(s: System, step: Step)
    requires Inv(s) && Separate(s, step)
    ensures Inv(Apply(s, step))
  {
    if !s.halted {
      match step
      case Deliver(packet) =>
        if packet in s.network {
          DeliverKeeps(s, packet);
        }
      case ReadData(id, n) => DoReadKeeps(s, id, n);
      case _ => ApplySenderKeeps(s, step);
    }
  }

  /** No packet of the run repeats its last frame. */
  predicate AllSeparate(s: System, steps: seq<Step>)
    requires Sane(s)
    decreases |steps|
  {
    steps == [] || (Separate(s, steps[0]) && AllSeparate(Apply(s, steps[0]), steps[1..]))
  }

  lemma {:induction false} RunKeeps(s: System, steps: seq<Step>)
    requires Inv(s) && AllSeparate(s, steps)
    ensures Inv(Run(s, steps))
    decreases |steps|
  {
    if steps != [] {
      ApplyKeeps(s, steps[0]);
      RunKeeps(Apply(s, steps[0]), steps[1..]);
    }
  }

  lemma {:induction false} InitOk(wire: Order, negotiated: FC.Negotiated, window: nat, maxIncrement: nat)
    ensures Inv(Init(wire, negotiated, window, maxIncrement))
  {
  }

  /**
    In every run in which no packet repeats its last frame, whatever is lost, repeated, reordered, split and
    retransmitted: what a stream's reader has been given is a prefix of what the stream has handed out.
   */
  lemma {:induction false} PrefixSafety(
    wire: Order, negotiated: FC.Negotiated, window: nat, maxIncrement: nat, steps: seq<Step>, id: nat)
    requires AllSeparate(Init(wire, negotiated, window, maxIncrement), steps)
    ensures var s := Run(Init(wire, negotiated, window, maxIncrement), steps);
      id in s.readers ==> id in s.delivered && id in s.contents && s.delivered[id] <= s.contents[id]
  {
    InitOk(wire, negotiated, window, maxIncrement);
    RunKeeps(Init(wire, negotiated, window, maxIncrement), steps);
  }

  /**
    In every such run every packet can be read, and every frame in it carries exactly the bytes that its stream
    handed out at its offset, and a FIN only at the end of a stream that hands out no more.
   */
  lemma {:induction false} FramesCarryContent(
    wire: Order, negotiated: FC.Negotiated, window: nat, maxIncrement: nat, steps: seq<Step>, packet: seq<byte>, i: nat)
    requires AllSeparate(Init(wire, negotiated, window, maxIncrement), steps)
    ensures var s := Run(Init(wire, negotiated, window, maxIncrement), steps);
      packet in s.network ==>
        && U.UnpackFrames(s.wire, packet, true).Ok?
        && var fs := U.UnpackFrames(s.wire, packet, true).value;
        i < |fs| ==>
          && fs[i].streamID in s.contents && Carries(fs[i], s.contents[fs[i].streamID])
          && (fs[i].fin ==>
              fs[i].End() == |s.contents[fs[i].streamID]| && F.Finished(s.framer.writers, fs[i].streamID))
  {
    InitOk(wire, negotiated, window, maxIncrement);
    RunKeeps(Init(wire, negotiated, window, maxIncrement), steps);
    var s := Run(Init(wire, negotiated, window, maxIncrement), steps);
    if packet in s.network {
      assert PacketOk(packet, s.wire, s.framer.writers, s.contents);
      var fs := U.UnpackFrames(s.wire, packet, true).value;
      if i < |fs| {
        assert F.FrameOk(fs[i], s.framer.writers, s.contents);
      }
    }
  }

  /** In every such run every sorter stays valid, and no read finds its position outside the head frame. */
  lemma {:induction false} PositionSafety(
    wire: Order, negotiated: FC.Negotiated, window: nat, maxIncrement: nat, steps: seq<Step>, id: nat, n: nat)
    requires AllSeparate(Init(wire, negotiated, window, maxIncrement), steps)
    ensures var s := Run(Init(wire, negotiated, window, maxIncrement), steps);
      id in s.readers ==> S.Valid(s.readers[id].sorter) && R.Read(s.readers[id], n).ending != R.BadPosition
  {
    InitOk(wire, negotiated, window, maxIncrement);
    RunKeeps(Init(wire, negotiated, window, maxIncrement), steps);
    var s := Run(Init(wire, negotiated, window, maxIncrement), steps);
    if id in s.readers {
      R.ReadKeepsPosition(s.readers[id], n);
    }
  }

  /** What has arrived without a gap is part of the content. */
  lemma {:induction false} FirstMissing(
    reader: R.State, arrived: seq<StreamFrame>, delivered: seq<byte>, content: seq<byte>)
    requires ReaderOk(reader, arrived, delivered, content)
    ensures var n := S.FirstFrom(reader.sorter.gaps, 0);
      n <= |content| && (forall b :: 0 <= b < n ==> HasArrived(arrived, b)) && (n < MAX_U64 ==> !HasArrived(arrived, n))
  {
    var n := S.FirstFrom(reader.sorter.gaps, 0);
    S.DrainReachesFirstMissing(reader.sorter, content);
    S.PopRefines(reader.sorter);
    S.LastByteMissing(-1, reader.sorter.gaps);
    S.FirstFromIsFirst(-1, reader.sorter.gaps, 0, MAX_U64 - 1);
    forall b: nat | b < n ensures HasArrived(arrived, b) {
      assert !S.Missing(reader.sorter.gaps, b);
    }
  }

  /**
    In every such run, a read that is long enough and does not end the stream has passed on the content exactly
    up to the first byte that was in no frame taken from a packet.
   */
  lemma {:induction false} Progress(
    wire: Order, negotiated: FC.Negotiated, window: nat, maxIncrement: nat, steps: seq<Step>, id: nat, n: nat)
    requires AllSeparate(Init(wire, negotiated, window, maxIncrement), steps)
    ensures var s := Run(Init(wire, negotiated, window, maxIncrement), steps);
      id in s.readers ==>
        && id in s.contents && id in s.arrived && id in s.delivered
        && var s' := DoRead(s, id, n);
        n >= |s.contents[id]| && !s'.readers[id].finished ==>
          var k := |s'.delivered[id]|;
          && k <= |s.contents[id]| && s'.delivered[id] == s.contents[id][..k]
          && (forall b :: 0 <= b < k ==> HasArrived(s.arrived[id], b))
          && !HasArrived(s.arrived[id], k)
  {
    InitOk(wire, negotiated, window, maxIncrement);
    RunKeeps(Init(wire, negotiated, window, maxIncrement), steps);
    var s := Run(Init(wire, negotiated, window, maxIncrement), steps);
    if id in s.readers && n >= |s.contents[id]| {
      ReaderProgress(s.readers[id], s.arrived[id], s.delivered[id], s.contents[id], n);
    }
  }

  lemma {:induction false} ReaderProgress(
    reader: R.State, arrived: seq<StreamFrame>, delivered: seq<byte>, content: seq<byte>, n: nat)
    requires ReaderOk(reader, arrived, delivered, content) && n >= |content|
    ensures var r := R.Read(reader, n);
      var k := |delivered + r.data|;
      !r.st.finished ==>
        && k <= |content| && delivered + r.data == content[..k]
        && (forall b :: 0 <= b < k ==> HasArrived(arrived, b))
        && !HasArrived(arrived, k)
  {
    FirstMissing(reader, arrived, delivered, content);
    R.ReadReaches(reader, n);
    ReadKeeps(reader, arrived, delivered, content, n);
  }

  // ----- Frames that are queued once -----

  lemma {:induction false} ReceiveAllKeepsSender(s: System, fs: seq<StreamFrame>)
    requires Sane(s)
    ensures ReceiveAll(s, fs).framer == s.framer && ReceiveAll(s, fs).negotiated == s.negotiated
    decreases |fs|
  {
    if fs != [] && !s.halted {
      ReceiveAllKeepsSender(Receive(s, fs[0]), fs[1..]);
    }
  }

  /** The receiver's steps do not touch the sender. */
  lemma {:induction false} ReceiverLeavesSender(s: System, step: Step)
    requires Sane(s) && (step.Deliver? || step.ReadData?)
    ensures Apply(s, step).framer == s.framer && Apply(s, step).negotiated == s.negotiated
  {
    if step.Deliver? {
      var r := U.UnpackFrames(s.wire, step.packet, true);
      if r.Ok? {
        ReceiveAllKeepsSender(s, r.value);
      }
    }
  }

  /** Only frames that are not waiting to be sent again are queued. */
  predicate QueuesOnce(s: System, step: Step) {
    step.Requeue? ==> step.name !in s.framer.queue
  }

  lemma {:induction false} NotShared(ids: seq<nat>)
    requires NoDuplicates(ids)
    ensures !P.SharesLast(ids)
  {
    if ids != [] {
      var front, last := ids[..|ids| - 1], P.Last(ids);
      assert ids == front + [last];
      NoDuplicatesAppend(front, [last]);
    }
  }

  lemma {:induction false} EmitOnce(s: System, order: seq<nat>, space: nat)
    requires Sane(s) && NoDuplicates(s.framer.queue)
    ensures !Repeats(s, order, space) && NoDuplicates(DoEmit(s, order, space).framer.queue)
  {
    F.PopDistinct(s.framer, order, space + 2, s.negotiated);
    NotShared(P.ComposeData(s.framer, order, space + 2, s.negotiated).1);
  }

  lemma {:induction false} ApplySenderOnce(s: System, step: Step)
    requires Sane(s) && NoDuplicates(s.framer.queue) && QueuesOnce(s, step)
    ensures NoDuplicates(ApplySender(s, step).framer.queue)
  {
    if step.Emit? {
      EmitOnce(s, step.order, step.space);
    } else if step.Requeue? {
      NoDuplicatesAppend(s.framer.queue, [step.name]);
    } else {
      OtherQueue(s, step);
    }
  }

  lemma {:induction false} OtherQueue(s: System, step: Step)
    requires Sane(s) && !step.Emit? && !step.Requeue?
    ensures ApplySender(s, step).framer.queue == s.framer.queue
  {
  }

  lemma {:induction false} ApplyOnce(s: System, step: Step)
    requires Sane(s) && NoDuplicates(s.framer.queue) && QueuesOnce(s, step)
    ensures Separate(s, step) && NoDuplicates(Apply(s, step).framer.queue)
  {
    if step.Emit? {
      EmitOnce(s, step.order, step.space);
    }
    if step.Deliver? || step.ReadData? {
      ReceiverLeavesSender(s, step);
    } else {
      ApplySenderOnce(s, step);
    }
  }

  predicate AllQueuedOnce(s: System, steps: seq<Step>)
    requires Sane(s)
    decreases |steps|
  {
    steps == [] || (QueuesOnce(s, steps[0]) && AllQueuedOnce(Apply(s, steps[0]), steps[1..]))
  }

  lemma {:induction false} RunOnce(s: System, steps: seq<Step>)
    requires Sane(s) && NoDuplicates(s.framer.queue) && AllQueuedOnce(s, steps)
    ensures AllSeparate(s, steps)
    decreases |steps|
  {
    if steps != [] {
      ApplyOnce(s, steps[0]);
      RunOnce(Apply(s, steps[0]), steps[1..]);
    }
  }

  /** A sender that never queues a frame which waits to be sent again delivers prefixes only. */
  lemma {:induction false} QueuedOnceSafety(
    wire: Order, negotiated: FC.Negotiated, window: nat, maxIncrement: nat, steps: seq<Step>, id: nat)
    requires AllQueuedOnce(Init(wire, negotiated, window, maxIncrement), steps)
    ensures AllSeparate(Init(wire, negotiated, window, maxIncrement), steps)
    ensures var s := Run(Init(wire, negotiated, window, maxIncrement), steps);
      id in s.readers ==> id in s.delivered && id in s.contents && s.delivered[id] <= s.contents[id]
  {
    RunOnce(Init(wire, negotiated, window, maxIncrement), steps);
    PrefixSafety(wire, negotiated, window, maxIncrement, steps, id);
  }

  // ----- Send windows -----

  /** The step does not cut off what was sent, by new agreed windows or by a first WINDOW_UPDATE. */
  ghost predicate KeepsWindows(s: System, step: Step) {
    s.halted ||
    match step
    case Negotiate(negotiated) => !FC.CutsOffAgreed(s.framer.fc, negotiated)
    case UpdatePeerWindow(id, offset) => !FC.CutsOff(s.framer.fc, id, offset)
    case _ => true
  }

  ghost predicate Within(s: System) {
    F.WithinWindows(s.framer.fc, s.negotiated)
  }

  lemma {:induction false} EmitWithin(s: System, order: seq<nat>, space: nat)
    requires Sane(s) && Within(s)
    ensures Within(DoEmit(s, order, space))
  {
    F.PopWithin(s.framer, order, space + 2, s.negotiated);
  }

  lemma {:induction false} ApplySenderWithin(s: System, step: Step)
    requires Sane(s) && Within(s) && !s.halted
    ensures Within(ApplySender(s, step)) <==> KeepsWindows(s, step)
  {
    match step
    case Emit(order, space) => EmitWithin(s, order, space);
    case Negotiate(negotiated) => F.NegotiatedWithin(s.framer.fc, s.negotiated, negotiated);
    case UpdatePeerWindow(id, offset) => F.PeerWindowWithin(s.framer.fc, id, offset, s.negotiated);
    case _ =>
  }

  lemma {:induction false} ApplyWithin(s: System, step: Step)
    requires Sane(s) && Within(s)
    ensures Within(Apply(s, step)) <==> KeepsWindows(s, step)
  {
    if !s.halted {
      if step.Deliver? || step.ReadData? {
        ReceiverLeavesSender(s, step);
      } else {
        ApplySenderWithin(s, step);
      }
    }
  }

  ghost predicate AllKeepWindows(s: System, steps: seq<Step>)
    requires Sane(s)
    decreases |steps|
  {
    steps == [] || (KeepsWindows(s, steps[0]) && AllKeepWindows(Apply(s, steps[0]), steps[1..]))
  }

  /** Every state of the run, the first and the last included, has sent no more than the windows allow. */
  ghost predicate AlwaysWithin(s: System, steps: seq<Step>)
    requires Sane(s)
    decreases |steps|
  {
    Within(s) && (steps == [] || AlwaysWithin(Apply(s, steps[0]), steps[1..]))
  }

  lemma {:induction false} RunWithin(s: System, steps: seq<Step>)
    requires Sane(s) && Within(s)
    ensures AlwaysWithin(s, steps) <==> AllKeepWindows(s, steps)
    ensures AllKeepWindows(s, steps) ==> Within(Run(s, steps))
    decreases |steps|
  {
    if steps != [] {
      ApplyWithin(s, steps[0]);
      if KeepsWindows(s, steps[0]) {
        RunWithin(Apply(s, steps[0]), steps[1..]);
      }
    }
  }

  /**
    Over every run, no more bytes are ever sent on a stream, or on the connection, than its window allows, if and
    only if no step cuts off what was sent: neither a first WINDOW_UPDATE nor, before it, new agreed windows.
   */
  lemma {:induction false} WindowSafety(
    wire: Order, negotiated: FC.Negotiated, window: nat, maxIncrement: nat, steps: seq<Step>)
    ensures AlwaysWithin(Init(wire, negotiated, window, maxIncrement), steps)
      <==> AllKeepWindows(Init(wire, negotiated, window, maxIncrement), steps)
    ensures AllKeepWindows(Init(wire, negotiated, window, maxIncrement), steps) ==>
      var s := Run(Init(wire, negotiated, window, maxIncrement), steps);
      F.WithinWindows(s.framer.fc, s.negotiated)
  {
    RunWithin(Init(wire, negotiated, window, maxIncrement), steps);
  }
}
