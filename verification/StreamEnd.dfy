/**
  The end of a stream, end to end (quic-go/stream.go, quic-go/stream_frame_sorter.go): a reader that has seen the end
  has been given everything, unless a frame with a FIN is stored after its last byte arrived.
 */
module StreamEnd {
  import opened Basics
  import opened ByteOrder
  import opened StreamFrames
  import opened StreamDelivery
  import F = StreamFramer
  import FC = FlowControlManager
  import P = PacketPacker
  import U = PacketUnpacker
  import S = StreamFrameSorter
  import R = ReceiveStream
  import W = SendStream

  // ----- One reader -----

  ghost predicate NoFins(queued: map<nat, StreamFrame>) {
    forall o :: o in queued ==> !queued[o].fin
  }

  /** FINs stand at the end of the content, which is complete then; a reader that has finished stands there too. */
  ghost predicate EndOk(reader: R.State, content: seq<byte>, complete: bool) {
    && S.FinsAt(reader.sorter.queued, |content|)
    && (!complete ==> NoFins(reader.sorter.queued) && !reader.finished)
    && (reader.finished ==> reader.readOffset == |content|)
  }

  /** The content grows only while it is not complete. */
  lemma {:induction false} EndStays(
    reader: R.State, content: seq<byte>, complete: bool, content': seq<byte>, complete': bool)
    requires EndOk(reader, content, complete) && (complete ==> complete' && content' == content)
    ensures EndOk(reader, content', complete')
  {
  }

  /** A frame with a FIN that is stored although its last byte came before it. */
  ghost predicate Late(reader: R.State, f: StreamFrame)
    requires S.GapsFrom(-1, reader.sorter.gaps) && f.End() <= MAX_U64
  {
    f.fin && f.data != [] && S.Pushed(reader.sorter, f).1 == S.Accepted && !S.Missing(reader.sorter.gaps, f.End() - 1)
  }

  lemma {:induction false} AddKeepsEnd(reader: R.State, f: StreamFrame, content: seq<byte>, complete: bool)
    requires EndOk(reader, content, complete) && R.Positioned(reader) && f.End() <= MAX_U64
    requires f.fin ==> complete && f.End() == |content|
    requires R.AddFrame(reader, f).1
    ensures EndOk(R.AddFrame(reader, f).0, content, complete) <==> !Late(reader, f)
  {
    TakenIsStorable(reader, f);
    if Late(reader, f) {
      S.FinStaysAtEnd(reader.sorter, f, |content|);
    } else {
      S.FinsStay(reader.sorter, f, |content|);
      if !complete {
        NoFinsStay(reader.sorter, f);
      }
    }
  }

  lemma {:induction false} NoFinsStay(sorter: S.State, f: StreamFrame)
    requires S.Valid(sorter) && S.Storable(f) && !f.fin && NoFins(sorter.queued)
    requires S.Pushed(sorter, f).1 in {S.Accepted, S.Duplicate}
    ensures NoFins(S.Pushed(sorter, f).0.queued)
  {
    if f.data != [] && S.Pushed(sorter, f).1 == S.Accepted {
      S.StoreBegins(sorter, f);
      S.StoreQueue(sorter, S.WithoutQueued(sorter.queued, f));
    }
  }

  lemma {:induction false} ChunkKeepsEnd(reader: R.State, n: nat, content: seq<byte>, complete: bool)
    requires EndOk(reader, content, complete) && R.Positioned(reader) && !reader.finished
    ensures EndOk(R.ReadChunk(reader, n).st, content, complete)
  {
  }

  lemma {:induction false} ReadKeepsEnd(reader: R.State, n: nat, content: seq<byte>, complete: bool)
    requires EndOk(reader, content, complete) && R.Positioned(reader)
    ensures EndOk(R.Read(reader, n).st, content, complete)
    decreases |reader.sorter.queued|
  {
    if !reader.finished && n > 0 {
      ChunkKeepsEnd(reader, n, content, complete);
      R.ReadUnfolds(reader, n);
      var c := R.ReadChunk(reader, n);
      if c.ending.None? {
        R.ChunkKeepsPosition(reader, n);
        R.ChunkShrinks(reader, n);
        ReadKeepsEnd(c.st, n - |c.data|, content, complete);
      }
    }
  }

  // ----- All readers -----

  ghost predicate EndsOk(s: System) {
    forall id :: id in s.readers && id in s.contents ==>
      EndOk(s.readers[id], s.contents[id], F.Finished(s.framer.writers, id))
  }

  // ----- The receiver's steps -----

  ghost predicate InTime(s: System, f: StreamFrame)
    requires Sane(s)
  {
    f.streamID in s.readers && f.End() <= MAX_U64 ==> !Late(s.readers[f.streamID], f)
  }

  /** No frame of a packet is late, given those before it. */
  ghost predicate AllInTime(s: System, fs: seq<StreamFrame>)
    requires Sane(s)
    decreases |fs|
  {
    fs == [] || s.halted || (InTime(s, fs[0]) && AllInTime(Receive(s, fs[0]), fs[1..]))
  }

  /** Readers stay in order after each frame of the packet. */
  ghost predicate AllEndsOk(s: System, fs: seq<StreamFrame>)
    requires Sane(s)
    decreases |fs|
  {
    EndsOk(s) && (fs == [] || s.halted || AllEndsOk(Receive(s, fs[0]), fs[1..]))
  }

  lemma {:induction false} ReceiveKeepsEnds(s: System, f: StreamFrame)
    requires Inv(s) && EndsOk(s) && F.FrameOk(f, s.framer.writers, s.contents)
    ensures EndsOk(Receive(s, f)) <==> InTime(s, f)
  {
    var id := f.streamID;
    if id in s.readers && f.End() <= MAX_U64 && R.AddFrame(s.readers[id], f).1 {
      AddKeepsEnd(s.readers[id], f, s.contents[id], F.Finished(s.framer.writers, id));
      OneReaderEnds(s, f);
    }
  }

  lemma {:induction false} OneReaderEnds(s: System, f: StreamFrame)
    requires Inv(s) && EndsOk(s) && f.streamID in s.readers && f.streamID in s.contents
    requires f.End() <= MAX_U64 && R.AddFrame(s.readers[f.streamID], f).1
    ensures EndsOk(Receive(s, f)) <==>
      EndOk(
        R.AddFrame(s.readers[f.streamID], f).0, s.contents[f.streamID], F.Finished(s.framer.writers, f.streamID))
  {
    var s' := Receive(s, f);
    assert s'.readers[f.streamID] == R.AddFrame(s.readers[f.streamID], f).0;
  }

  lemma {:induction false} ReceiveAllKeepsEnds(s: System, fs: seq<StreamFrame>)
    requires Inv(s) && EndsOk(s) && FramesOk(fs, s.framer.writers, s.contents)
    ensures AllEndsOk(s, fs) <==> AllInTime(s, fs)
    ensures AllInTime(s, fs) ==> EndsOk(ReceiveAll(s, fs))
    decreases |fs|
  {
    if fs != [] && !s.halted {
      ReceiveKeepsEnds(s, fs[0]);
      if InTime(s, fs[0]) {
        ReceiveKeeps(s, fs[0]);
        ReceiveAllKeepsEnds(Receive(s, fs[0]), fs[1..]);
      }
    }
  }

  /** What arrives with the step. */
  function Arriving(s: System, step: Step): seq<StreamFrame> {
    if !step.Deliver? || s.halted || step.packet !in s.network then []
    else match U.UnpackFrames(s.wire, step.packet, true) case Err(_) => [] case Ok(fs) => fs
  }

  lemma {:induction false} ArrivingOk(s: System, step: Step)
    requires Inv(s)
    ensures FramesOk(Arriving(s, step), s.framer.writers, s.contents)
    ensures step.Deliver? && !s.halted && step.packet in s.network ==>
      Apply(s, step) == ReceiveAll(s, Arriving(s, step))
  {
    if step.Deliver? && !s.halted && step.packet in s.network {
      assert PacketOk(step.packet, s.wire, s.framer.writers, s.contents);
    }
  }

  lemma {:induction false} DoReadKeepsEnds(s: System, id: nat, n: nat)
    requires Inv(s) && EndsOk(s)
    ensures EndsOk(DoRead(s, id, n))
  {
    if id in s.readers {
      ReadKeepsEnd(s.readers[id], n, s.contents[id], F.Finished(s.framer.writers, id));
    }
  }

  // ----- The sender's steps -----

  /** Contents only grow, and not at all once complete; readers stay as they are. */
  ghost predicate Moves(s: System, s': System) {
    && F.Grows(s.framer.writers, s.contents, s'.framer.writers, s'.contents)
    && s'.readers == s.readers
  }

  lemma {:induction false} MovesKeepsEnds(s: System, s': System)
    requires Inv(s) && EndsOk(s) && Moves(s, s')
    ensures EndsOk(s')
  {
    forall id | id in s'.readers && id in s'.contents
      ensures EndOk(s'.readers[id], s'.contents[id], F.Finished(s'.framer.writers, id))
    {
      assert id in s.contents;
      EndStays(s.readers[id], s.contents[id], F.Finished(s.framer.writers, id),
        s'.contents[id], F.Finished(s'.framer.writers, id));
    }
  }

  /** Nothing that matters here has changed. */
  ghost predicate Same(s: System, s': System) {
    s'.framer.writers == s.framer.writers && s'.contents == s.contents && s'.readers == s.readers
  }

  lemma {:induction false} SameKeepsEnds(s: System, s': System)
    requires EndsOk(s) && Same(s, s')
    ensures EndsOk(s')
  {
  }

  lemma {:induction false} SendPacketSame(s: System, fs: seq<StreamFrame>, space: nat)
    requires Sane(s)
    ensures Same(s, SendPacket(s, fs, space))
  {
  }

  lemma {:induction false} FilledMoves(s: System, order: seq<nat>, space: nat)
    requires Inv(s)
    ensures Moves(s, Filled(s, order, space))
  {
    F.PopOk(s.framer, order, space + 2, s.negotiated, s.contents);
  }

  lemma {:induction false} EmitSame(s: System, order: seq<nat>, space: nat)
    requires Sane(s)
    ensures Same(Filled(s, order, space), DoEmit(s, order, space))
  {
    var s', ids := Filled(s, order, space), P.ComposeData(s.framer, order, space + 2, s.negotiated).1;
    if ids != [] {
      SendPacketSame(s', F.Frames(s'.framer.store, ids), space);
    }
  }

  lemma {:induction false} EmitKeepsEnds(s: System, order: seq<nat>, space: nat)
    requires Inv(s) && EndsOk(s)
    ensures EndsOk(DoEmit(s, order, space))
  {
    FilledMoves(s, order, space);
    MovesKeepsEnds(s, Filled(s, order, space));
    EmitSame(s, order, space);
    SameKeepsEnds(Filled(s, order, space), DoEmit(s, order, space));
  }

  lemma {:induction false} CryptoMoves(s: System, w: W.State, f: StreamFrame)
    requires Inv(s) && 1 in s.framer.writers && f.streamID == 1 && !s.framer.writers[1].finSent
    ensures Moves(s, AfterCrypto(s, w, f))
  {
  }

  lemma {:induction false} EmitCryptoKeepsEnds(s: System, space: nat)
    requires Inv(s) && EndsOk(s) && space <= MAX_PACKET_SIZE
    ensures EndsOk(DoEmitCrypto(s, space))
  {
    if 1 in s.framer.writers && CryptoFrame(s.framer.writers[1], space).Some? {
      var (w, f) := CryptoFrame(s.framer.writers[1], space).value;
      CryptoFrameOk(s.framer.writers[1], space, s.contents[1]);
      CryptoMoves(s, w, f);
      MovesKeepsEnds(s, AfterCrypto(s, w, f));
      SendPacketSame(AfterCrypto(s, w, f), [f], space);
      SameKeepsEnds(AfterCrypto(s, w, f), DoEmitCrypto(s, space));
    }
  }

  lemma {:induction false} WriterKeepsEnds(s: System, id: nat, w: W.State)
    requires Inv(s) && EndsOk(s) && id in s.framer.writers && (s.framer.writers[id].finSent ==> w.finSent)
    ensures EndsOk(OnWriter(s, id, w))
  {
    assert Moves(s, OnWriter(s, id, w));
    MovesKeepsEnds(s, OnWriter(s, id, w));
  }

  lemma {:induction false} OpenWriterMoves(s: System, id: nat, fc: FC.State)
    requires Inv(s) && id !in s.contents
    ensures Moves(s, s.(
      framer := s.framer.(writers := s.framer.writers[id := W.INIT], fc := fc), contents := s.contents[id := []]))
  {
  }

  lemma {:induction false} NewReaderEnds(s: System, id: nat)
    requires EndsOk(s) && id in s.contents && s.contents[id] == [] && !F.Finished(s.framer.writers, id)
    ensures EndsOk(s.(
      readers := s.readers[id := R.Init()], arrived := s.arrived[id := []], delivered := s.delivered[id := []]))
  {
    assert EndOk(R.Init(), [], false);
  }

  lemma {:induction false} OpenKeepsEnds(s: System, id: nat, contributes: bool, window: nat, maxIncrement: nat)
    requires Inv(s) && EndsOk(s)
    ensures EndsOk(DoOpen(s, id, contributes, window, maxIncrement))
  {
    if id !in s.contents && id < 0x1_0000_0000 {
      var fc := FC.NewStream(s.framer.fc, id, contributes, window, maxIncrement);
      var s' := s.(
        framer := s.framer.(writers := s.framer.writers[id := W.INIT], fc := fc), contents := s.contents[id := []]);
      assert EndsOk(s') by {
        OpenWriterMoves(s, id, fc);
        MovesKeepsEnds(s, s');
      }
      NewReaderEnds(s', id);
    }
  }

  lemma {:induction false} ApplicationKeepsEnds(s: System, step: Step)
    requires Inv(s) && EndsOk(s) && (step.WriteData? || step.CloseStream? || step.FailStream?)
    ensures EndsOk(ApplySender(s, step))
  {
    if step.id in s.framer.writers {
      var w := s.framer.writers[step.id];
      match step
      case WriteData(id, p) => WriterKeepsEnds(s, id, W.Write(w, p).0);
      case CloseStream(id) => WriterKeepsEnds(s, id, W.Close(w));
      case FailStream(id) => WriterKeepsEnds(s, id, W.Fail(w));
    }
  }

  lemma {:induction false} OtherKeepsEnds(s: System, step: Step)
    requires Inv(s) && EndsOk(s)
    requires step.Negotiate? || step.UpdatePeerWindow? || step.Requeue? || step.Deliver? || step.ReadData?
    ensures EndsOk(ApplySender(s, step))
  {
    OtherSame(s, step);
    SameKeepsEnds(s, ApplySender(s, step));
  }

  lemma {:induction false} OtherSame(s: System, step: Step)
    requires Sane(s)
    requires step.Negotiate? || step.UpdatePeerWindow? || step.Requeue? || step.Deliver? || step.ReadData?
    ensures Same(s, ApplySender(s, step))
  {
  }

  lemma {:induction false} SenderKeepsEnds(s: System, step: Step)
    requires Inv(s) && EndsOk(s)
    ensures EndsOk(ApplySender(s, step))
  {
    match step
    case OpenStream(id, contributes, window, maxIncrement) => OpenKeepsEnds(s, id, contributes, window, maxIncrement);
    case Emit(order, space) => EmitKeepsEnds(s, order, space);
    case EmitCrypto(space) =>
      if space <= MAX_PACKET_SIZE {
        EmitCryptoKeepsEnds(s, space);
      }
    case WriteData(_, _) => ApplicationKeepsEnds(s, step);
    case CloseStream(_) => ApplicationKeepsEnds(s, step);
    case FailStream(_) => ApplicationKeepsEnds(s, step);
    case _ => OtherKeepsEnds(s, step);
  }

  // ----- Whole runs -----

  /** The step stores no frame with a FIN after its last byte arrived. */
  ghost predicate StepInTime(s: System, step: Step)
    requires Sane(s)
  {
    AllInTime(s, Arriving(s, step))
  }

  lemma {:induction false} ApplyKeepsEnds(s: System, step: Step)
    requires Inv(s) && EndsOk(s)
    ensures AllEndsOk(s, Arriving(s, step)) <==> StepInTime(s, step)
    ensures StepInTime(s, step) ==> EndsOk(Apply(s, step))
  {
    ArrivingOk(s, step);
    ReceiveAllKeepsEnds(s, Arriving(s, step));
    if !s.halted {
      match step
      case Deliver(packet) =>
      case ReadData(id, n) => DoReadKeepsEnds(s, id, n);
      case _ => SenderKeepsEnds(s, step);
    }
  }

  ghost predicate RunInTime(s: System, steps: seq<Step>)
    requires Sane(s)
    decreases |steps|
  {
    steps == [] || (StepInTime(s, steps[0]) && RunInTime(Apply(s, steps[0]), steps[1..]))
  }

  /** Readers are in order in every state of the run, and after each frame of a packet. */
  ghost predicate AlwaysEndsOk(s: System, steps: seq<Step>)
    requires Sane(s)
    decreases |steps|
  {
    EndsOk(s) &&
    (steps == [] || (AllEndsOk(s, Arriving(s, steps[0])) && AlwaysEndsOk(Apply(s, steps[0]), steps[1..])))
  }

  lemma {:induction false} RunKeepsEnds(s: System, steps: seq<Step>)
    requires Inv(s) && EndsOk(s) && AllSeparate(s, steps)
    ensures AlwaysEndsOk(s, steps) <==> RunInTime(s, steps)
    ensures RunInTime(s, steps) ==> Inv(Run(s, steps)) && EndsOk(Run(s, steps))
    decreases |steps|
  {
    if steps != [] {
      ApplyKeeps(s, steps[0]);
      ApplyKeepsEnds(s, steps[0]);
      if StepInTime(s, steps[0]) {
        RunKeepsEnds(Apply(s, steps[0]), steps[1..]);
      }
    }
  }

  /**
    In every run in which no packet repeats its last frame: every FIN that a reader holds stands at the end of what
    its stream hands out, and a reader that has seen the end has been given everything, at all times, if and only if
    no frame with a FIN is stored after its last byte arrived.
   */
  lemma {:induction false} EndMeansAll(
    wire: Order, negotiated: FC.Negotiated, window: nat, maxIncrement: nat, steps: seq<Step>, id: nat)
    requires AllSeparate(Init(wire, negotiated, window, maxIncrement), steps)
    ensures AlwaysEndsOk(Init(wire, negotiated, window, maxIncrement), steps)
      <==> RunInTime(Init(wire, negotiated, window, maxIncrement), steps)
    ensures var s := Run(Init(wire, negotiated, window, maxIncrement), steps);
      RunInTime(Init(wire, negotiated, window, maxIncrement), steps) && id in s.readers && s.readers[id].finished ==>
        && id in s.delivered && id in s.contents && s.delivered[id] == s.contents[id]
        && F.Finished(s.framer.writers, id)
  {
    InitOk(wire, negotiated, window, maxIncrement);
    RunKeepsEnds(Init(wire, negotiated, window, maxIncrement), steps);
    var s := Run(Init(wire, negotiated, window, maxIncrement), steps);
    if RunInTime(Init(wire, negotiated, window, maxIncrement), steps) && id in s.readers && s.readers[id].finished {
      assert s.contents[id][..|s.contents[id]|] == s.contents[id];
    }
  }
}
