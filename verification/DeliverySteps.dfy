/** Steps of the end to end model worked out for one stream, from which runs are put together. */
module DeliverySteps {
  import opened Basics
  import opened ByteOrder
  import opened StreamFrames
  import opened StreamDelivery
  import Codec = StreamFrameCodec
  import F = StreamFramer
  import FC = FlowControlManager
  import P = PacketPacker
  import U = PacketUnpacker
  import S = StreamFrameSorter
  import R = ReceiveStream
  import W = SendStream

  // ----- Runs -----

  /** One step leads from the state to the next. */
  ghost predicate Goes(s: System, step: Step, next: System) {
    Sane(s) && Apply(s, step) == next
  }

  ghost predicate Leads(s: System, steps: seq<Step>, end: System) {
    Sane(s) && Run(s, steps) == end
  }

  lemma {:induction false} LeadsNowhere(s: System)
    requires Sane(s)
    ensures Leads(s, [], s)
  {
  }

  lemma {:induction false} LeadsCons(s: System, step: Step, next: System, steps: seq<Step>, end: System)
    requires Goes(s, step, next) && Leads(next, steps, end)
    ensures Leads(s, [step] + steps, end)
  {
    assert ([step] + steps)[1..] == steps;
  }

  /** A run in which every frame is queued for retransmission only while it is not queued already. */
  ghost predicate LeadsOnce(s: System, steps: seq<Step>, end: System) {
    Leads(s, steps, end) && AllQueuedOnce(s, steps)
  }

  lemma {:induction false} OnceNowhere(s: System)
    requires Sane(s)
    ensures LeadsOnce(s, [], s)
  {
  }

  lemma {:induction false} OnceCons(s: System, step: Step, next: System, steps: seq<Step>, end: System)
    requires Goes(s, step, next) && QueuesOnce(s, step) && LeadsOnce(next, steps, end)
    ensures LeadsOnce(s, [step] + steps, end)
  {
    assert ([step] + steps)[1..] == steps;
  }

  // ----- Packets with one frame -----

  lemma {:induction false} OneFrame(wire: Order, f: StreamFrame)
    requires Codec.Encodable(f)
    ensures Codec.Write(wire, f).Some? && |Codec.Write(wire, f).value| == F.Length(f)
    ensures P.DataBytes(wire, [f]) == Some(Codec.Write(wire, f).value)
    ensures U.UnpackFrames(wire, Codec.Write(wire, f).value, true) == Ok([f])
  {
    assert [f][1..] == [];
    U.UnpackWritten(wire, [f], true);
    Codec.LengthWritten(wire, f);
    assert P.DataBytes(wire, []) == Some([]);
    assert Codec.Write(wire, f).value + [] == Codec.Write(wire, f).value;
  }

  lemma {:induction false} SendsFrame(s: System, f: StreamFrame, space: nat)
    requires Sane(s) && Codec.Encodable(f) && F.Length(f) <= space && !TooLong(s.contents)
    ensures Codec.Write(s.wire, f).Some?
    ensures SendPacket(s, [f], space) == s.(network := s.network + {Codec.Write(s.wire, f).value})
  {
    OneFrame(s.wire, f);
  }

  lemma {:induction false} ReceiveOne(s: System, f: StreamFrame)
    requires Sane(s) && !s.halted
    ensures ReceiveAll(s, [f]) == Receive(s, f)
  {
    assert [f][1..] == [];
  }

  lemma {:induction false} DeliversFrame(s: System, f: StreamFrame, packet: seq<byte>)
    requires Sane(s) && !s.halted && packet in s.network && U.UnpackFrames(s.wire, packet, true) == Ok([f])
    ensures Apply(s, Deliver(packet)) == Receive(s, f)
  {
    ReceiveOne(s, f);
  }

  /** What a packet with the named frames does to the system. */
  lemma {:induction false} Emits(s: System, order: seq<nat>, space: nat, ids: seq<nat>, fs: seq<StreamFrame>)
    requires Sane(s) && !s.halted && space <= MAX_PACKET_SIZE && ids != []
    requires P.ComposeData(s.framer, order, space + 2, s.negotiated).1 == ids
    requires F.Frames(Filled(s, order, space).framer.store, ids) == fs
    ensures Apply(s, Emit(order, space)) == SendPacket(Filled(s, order, space), fs, space)
  {
    assert Apply(s, Emit(order, space)) == DoEmit(s, order, space);
  }

  // ----- Packets with retransmissions only -----

  lemma {:induction false} NothingNew(framer: F.State, space: nat, negotiated: FC.Negotiated)
    requires F.Refers(framer.queue, |framer.store|)
    ensures F.NewFrames(framer, [], space, negotiated).frames == []
    ensures F.NewFrames(framer, [], space, negotiated).st == F.AfterRetransmissions(framer, space)
  {
  }

  lemma {:induction false} OnlyRetransmissions(
    framer: F.State, space: nat, negotiated: FC.Negotiated, composed: (F.State, seq<nat>), popped: F.Taken)
    requires F.Refers(framer.queue, |framer.store|)
    requires composed == P.ComposeData(framer, [], space, negotiated)
    requires popped == F.PopRetransmissions(framer.store, framer.queue, space)
    ensures composed.1 == popped.ids && composed.0.store == P.ClearLast(popped.store, popped.ids)
    ensures composed.0.queue == popped.queue && composed.0.writers == framer.writers
  {
    NothingNew(framer, space, negotiated);
    assert popped.ids + F.Range(|popped.store|, 0) == popped.ids;
  }

  lemma {:induction false} SameContents(framer: F.State, space: nat, negotiated: FC.Negotiated, contents: F.Contents)
    requires F.Refers(framer.queue, |framer.store|)
    ensures F.ContentsAfter(framer, [], space, negotiated, contents) == contents
  {
    NothingNew(framer, space, negotiated);
  }

  // ----- One stream -----

  const NEGOTIATED := FC.Negotiated(100, 100)

  function OpenedFramer(data: seq<byte>, closed: bool): F.State {
    F.State(
      map[5 := W.State(0, Some(data), false, closed, false)],
      FC.NewStream(FC.InitialState(100, 100), 5, true, 100, 100), [], [], [])
  }

  /** Stream 5 is open, perhaps closed for writing, and its data wait to be sent. */
  function OpenedSystem(wire: Order, data: seq<byte>, closed: bool): (s: System)
    ensures Sane(s)
  {
    System(
      wire, NEGOTIATED, OpenedFramer(data, closed), map[5 := []], {}, map[5 := R.Init()], map[5 := []], map[5 := []],
      false)
  }

  lemma {:induction false} Opened(wire: Order, data: seq<byte>)
    requires data != []
    ensures Apply(Apply(Init(wire, NEGOTIATED, 100, 100), OpenStream(5, true, 100, 100)), WriteData(5, data))
      == OpenedSystem(wire, data, false)
  {
  }

  lemma {:induction false} Closed(wire: Order, data: seq<byte>)
    ensures Apply(OpenedSystem(wire, data, false), CloseStream(5)) == OpenedSystem(wire, data, true)
  {
  }

  /** The frame that the stream's first turn yields. */
  function FirstFrame(data: seq<byte>, closed: bool): StreamFrame {
    StreamFrame(5, closed, true, 0, data)
  }

  lemma {:induction false} FirstVisit(data: seq<byte>, closed: bool)
    requires 1 <= |data| <= 2
    ensures var v := F.VisitStream(OpenedFramer(data, closed), 5, 0, 102, NEGOTIATED);
      && v.frame == Some(FirstFrame(data, closed)) && v.goOn
      && v.st.store == [FirstFrame(data, closed)] && v.st.queue == []
  {
  }

  lemma {:induction false} FirstWalk(data: seq<byte>, closed: bool)
    requires 1 <= |data| <= 2
    ensures var w := F.NewFrames(OpenedFramer(data, closed), [5], 102, NEGOTIATED);
      w.frames == [FirstFrame(data, closed)] && w.st.store == [FirstFrame(data, closed)] && w.st.queue == []
  {
    FirstVisit(data, closed);
    assert [5][1..] == [] && [5][0] == 5;
    var g := FirstFrame(data, closed);
    assert [g] + [] == [g];
    assert F.AfterRetransmissions(OpenedFramer(data, closed), 102) == OpenedFramer(data, closed);
  }

  lemma {:induction false} FirstContents(data: seq<byte>, closed: bool)
    requires 1 <= |data| <= 2
    ensures F.ContentsAfter(OpenedFramer(data, closed), [5], 102, NEGOTIATED, map[5 := []]) == map[5 := data]
  {
    FirstWalk(data, closed);
    var g := FirstFrame(data, closed);
    var none: seq<byte> := [];
    assert none + data == data;
    var before, after: F.Contents := map[5 := none], map[5 := data];
    assert F.Extended(before, Some(g)) == after;
    assert [g][1..] == [];
    assert F.ExtendedAll(before, [g]) == F.ExtendedAll(after, []) == after;
  }

  lemma {:induction false} FirstComposed(data: seq<byte>, closed: bool)
    requires 1 <= |data| <= 2
    ensures var r := P.ComposeData(OpenedFramer(data, closed), [5], 102, NEGOTIATED);
      r.1 == [0] && r.0.store == [FirstFrame(data, closed).(dataLenPresent := false)] && r.0.queue == []
  {
    FirstWalk(data, closed);
    var g := FirstFrame(data, closed);
    assert F.Range(0, 1) == [0] && [] + [0] == [0];
    var cleared := g.(dataLenPresent := false);
    assert [g][0 := cleared] == [cleared];
  }

  /** Stream 5 has sent the content; the store holds its frames, and nothing has arrived. */
  ghost predicate Sending(s: System, store: F.Store, queue: seq<nat>, content: seq<byte>) {
    && Sane(s) && !s.halted
    && s.framer.store == store && s.framer.queue == queue && s.contents == map[5 := content]
    && s.readers == map[5 := R.Init()] && s.arrived == map[5 := []] && s.delivered == map[5 := []]
  }

  lemma {:induction false} FirstFilled(wire: Order, data: seq<byte>, closed: bool)
    requires 1 <= |data| <= 2
    ensures var s := Filled(OpenedSystem(wire, data, closed), [5], 100);
      Sending(s, [FirstFrame(data, closed).(dataLenPresent := false)], [], data) && s.wire == wire
  {
    FirstComposed(data, closed);
    FirstContents(data, closed);
  }

  /** The first packet is on its way. */
  lemma {:induction false} FirstPacket(wire: Order, data: seq<byte>, closed: bool)
    requires 1 <= |data| <= 2
    ensures var s := Apply(OpenedSystem(wire, data, closed), Emit([5], 100));
      var f := FirstFrame(data, closed).(dataLenPresent := false);
      && Sending(s, [f], [], data) && s.wire == wire
      && Codec.Write(wire, f).Some? && Codec.Write(wire, f).value in s.network
  {
    var f := FirstFrame(data, closed).(dataLenPresent := false);
    var s := Filled(OpenedSystem(wire, data, closed), [5], 100);
    FirstFilled(wire, data, closed);
    assert Apply(OpenedSystem(wire, data, closed), Emit([5], 100)) == SendPacket(s, [f], 100) by {
      FirstComposed(data, closed);
      assert F.Frames([f], [0]) == [f];
      Emits(OpenedSystem(wire, data, closed), [5], 100, [0], [f]);
    }
    assert !TooLong(s.contents);
    SendsFrame(s, f, 100);
  }

  lemma {:induction false} QueueStep(s: System, store: F.Store, queue: seq<nat>, content: seq<byte>)
    returns (next: System)
    requires Sending(s, store, queue, content) && store != []
    ensures Goes(s, Requeue(0), next)
    ensures Sending(next, store, queue + [0], content) && next.wire == s.wire && next.network == s.network
  {
    next := Apply(s, Requeue(0));
  }

  lemma {:induction false} FirstStep(wire: Order, data: seq<byte>, closed: bool) returns (next: System)
    requires 1 <= |data| <= 2
    ensures var f := FirstFrame(data, closed).(dataLenPresent := false);
      && Goes(OpenedSystem(wire, data, closed), Emit([5], 100), next)
      && Sending(next, [f], [], data) && next.wire == wire
      && Codec.Write(wire, f).Some? && Codec.Write(wire, f).value in next.network
  {
    FirstPacket(wire, data, closed);
    next := Apply(OpenedSystem(wire, data, closed), Emit([5], 100));
  }

  lemma {:induction false} OpenSteps(wire: Order, data: seq<byte>) returns (next: System)
    requires data != []
    ensures Goes(Init(wire, NEGOTIATED, 100, 100), OpenStream(5, true, 100, 100), next)
    ensures Goes(next, WriteData(5, data), OpenedSystem(wire, data, false))
  {
    Opened(wire, data);
    next := Apply(Init(wire, NEGOTIATED, 100, 100), OpenStream(5, true, 100, 100));
  }

  // ----- The reader -----

  /** The stream has one reader in a given state, which has passed nothing on. */
  ghost predicate Reading(s: System, reader: R.State, content: seq<byte>) {
    && Sane(s) && !s.halted && s.contents == map[5 := content]
    && s.readers == map[5 := reader] && s.arrived.Keys == {5} && s.delivered == map[5 := []]
  }

  lemma {:induction false} ReceivesAs(s: System, reader: R.State, content: seq<byte>, f: StreamFrame, reader': R.State)
    requires Reading(s, reader, content) && f.streamID == 5 && f.End() <= MAX_U64
    requires S.GapsFrom(-1, reader.sorter.gaps) && R.AddFrame(reader, f) == (reader', true)
    ensures Reading(Receive(s, f), reader', content)
    ensures Receive(s, f).wire == s.wire && Receive(s, f).network == s.network
  {
  }

  lemma {:induction false} ArrivesAs(
    s: System, reader: R.State, content: seq<byte>, f: StreamFrame, reader': R.State, packet: seq<byte>)
    returns (next: System)
    requires Reading(s, reader, content) && f.streamID == 5 && f.End() <= MAX_U64
    requires S.GapsFrom(-1, reader.sorter.gaps) && R.AddFrame(reader, f) == (reader', true)
    requires packet in s.network && U.UnpackFrames(s.wire, packet, true) == Ok([f])
    ensures Goes(s, Deliver(packet), next) && Reading(next, reader', content)
    ensures next.wire == s.wire && next.network == s.network
  {
    DeliversFrame(s, f, packet);
    ReceivesAs(s, reader, content, f, reader');
    next := Receive(s, f);
  }

  lemma {:induction false} ReadsAs(s: System, reader: R.State, content: seq<byte>, n: nat, r: R.ReadResult)
    returns (next: System)
    requires Reading(s, reader, content) && r == R.Read(reader, n)
    ensures Goes(s, ReadData(5, n), next)
    ensures next.readers == map[5 := r.st] && next.delivered == map[5 := r.data] && next.contents == s.contents
  {
    assert [] + r.data == r.data;
    next := DoRead(s, 5, n);
  }
}
