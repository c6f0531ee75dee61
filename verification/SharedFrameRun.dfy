/**
  A run that goes wrong: one frame is queued for retransmission twice, which the scheduler's duplicating strategy
  and its collection of retransmissions both allow (quic-go/scheduler.go), and the packer changes it in place.
 */
module SharedFrameRun {
  import opened Basics
  import opened ByteOrder
  import opened StreamFrames
  import opened StreamDelivery
  import opened DeliverySteps
  import Codec = StreamFrameCodec
  import F = StreamFramer
  import P = PacketPacker
  import U = PacketUnpacker
  import S = StreamFrameSorter
  import R = ReceiveStream

  /** The frame with the one byte `x`, once its length field is cleared. */
  function Single(x: byte): StreamFrame {
    FirstFrame([x], false).(dataLenPresent := false)
  }

  function One(wire: Order, x: byte): seq<byte> {
    Codec.Write(wire, Single(x)).value
  }

  /** Two entries of one frame: the second one is read as data of the first. */
  lemma {:induction false} DoubledPacket(wire: Order, x: byte)
    ensures var f, one := Single(x), One(wire, x);
      && |one| == 3 && P.DataBytes(wire, [f, f]) == Some(one + one)
      && U.UnpackFrames(wire, one + one, true) == Ok([f.(data := [x] + one)])
  {
    var f, one := Single(x), One(wire, x);
    OneFrame(wire, f);
    assert [f, f][1..] == [f];
    U.SwallowsRest(wire, f, one);
  }

  lemma {:induction false} SecondTaken(f: StreamFrame, used: nat, space: nat)
    requires f.dataLenPresent && F.Fits(f, used, space)
    ensures F.Refers([0], 1) && F.TakeWhole([f], [0], used, space) == F.Taken([f], [0], [], used + F.Length(f))
  {
    assert F.Marked([f], 0) == [f] && [0][1..] == [];
    F.TakeWholeUnfolds([f], [0], used, space);
    assert F.TakeWhole([f], [], used + F.Length(f), space) == F.Taken([f], [], [], used + F.Length(f));
    assert [0] + [] == [0];
  }

  /** Both entries are taken whole. */
  lemma {:induction false} DoubledTaken(x: byte, space: nat)
    requires space >= 12
    ensures var marked := FirstFrame([x], false);
      && F.Refers([0, 0], 1)
      && F.TakeWhole([Single(x)], [0, 0], 0, space) == F.Taken([marked], [0, 0], [], 10)
  {
    var f, marked := Single(x), FirstFrame([x], false);
    assert [0, 0][1..] == [0] && F.Marked([f], 0) == [marked];
    SecondTaken(marked, 5, space);
    F.TakeWholeUnfolds([f], [0, 0], 0, space);
    assert [0] + [0] == [0, 0];
  }

  lemma {:induction false} DoubledPopped(x: byte)
    ensures F.Refers([0, 0], 1)
    ensures var p := F.PopRetransmissions([Single(x)], [0, 0], 102);
      p == F.Taken([FirstFrame([x], false)], [0, 0], [], 10) && P.ClearLast(p.store, p.ids) == [Single(x)]
  {
    DoubledTaken(x, 102);
    assert [FirstFrame([x], false)][0 := Single(x)] == [Single(x)];
  }

  /** Both entries lose the length field. */
  lemma {:induction false} FilledDouble(s: System, x: byte)
    requires Sending(s, [Single(x)], [0, 0], [x])
    ensures P.ComposeData(s.framer, [], 102, s.negotiated).1 == [0, 0]
    ensures var s' := Filled(s, [], 100); Sending(s', [Single(x)], [], [x]) && s'.wire == s.wire
  {
    var composed := P.ComposeData(s.framer, [], 102, s.negotiated);
    var popped := F.PopRetransmissions(s.framer.store, s.framer.queue, 102);
    DoubledPopped(x);
    OnlyRetransmissions(s.framer, 102, s.negotiated, composed, popped);
    SameContents(s.framer, 102, s.negotiated, s.contents);
  }

  lemma {:induction false} TwiceNamed(x: byte)
    ensures F.Refers([0, 0], 1) && F.Frames([Single(x)], [0, 0]) == [Single(x), Single(x)]
  {
    assert [0, 0][1..] == [0];
  }

  /** A packet with the frame twice. */
  lemma {:induction false} SendsTwo(s: System, x: byte)
    requires Sane(s) && s.contents == map[5 := [x]]
    ensures SendPacket(s, [Single(x), Single(x)], 100)
      == s.(network := s.network + {One(s.wire, x) + One(s.wire, x)})
  {
    DoubledPacket(s.wire, x);
    assert !TooLong(s.contents);
  }

  lemma {:induction false} SecondPacket(s: System, x: byte) returns (next: System)
    requires Sending(s, [Single(x)], [0, 0], [x])
    ensures Goes(s, Emit([], 100), next) && Sending(next, [Single(x)], [], [x]) && next.wire == s.wire
    ensures One(s.wire, x) + One(s.wire, x) in next.network
  {
    next := Apply(s, Emit([], 100));
    assert next == SendPacket(Filled(s, [], 100), [Single(x), Single(x)], 100) by {
      FilledDouble(s, x);
      TwiceNamed(x);
      Emits(s, [], 100, [0, 0], [Single(x), Single(x)]);
    }
    FilledDouble(s, x);
    SendsTwo(Filled(s, [], 100), x);
  }

  /** The reader is given the byte, and then the second frame's header. */
  lemma {:induction false} MergedRead(f: StreamFrame)
    requires f.streamID == 5 && !f.fin && f.offset == 0 && |f.data| == 4
    ensures S.GapsFrom(-1, S.Init().gaps) && R.AddFrame(R.Init(), f).1
    ensures R.Read(R.AddFrame(R.Init(), f).0, 4).data == f.data
  {
    var gaps := S.Init().gaps;
    assert gaps[1..] == [];
    assert f.data[0..] == f.data && f.data[..4] == f.data && S.Cut(f, 0, 4) == f;
    var reader := R.AddFrame(R.Init(), f).0;
    assert reader.sorter.queued == map[0 := f];
    assert f.data[0..4] == f.data;
    R.ReadUnfolds(reader, 4);
    assert f.data + [] == f.data;
  }

  /** Send one byte, queue its frame twice, send it again, and read. */
  function TwiceSteps(wire: Order, x: byte): seq<Step> {
    [OpenStream(5, true, 100, 100)] + ([WriteData(5, [x])] + ([Emit([5], 100)] + ([Requeue(0)] + ([Requeue(0)] +
    ([Emit([], 100)] + ([Deliver(One(wire, x) + One(wire, x))] + ([ReadData(5, 4)] + [])))))))
  }

  lemma {:induction false} Arrival(s: System, x: byte) returns (end: System)
    requires Reading(s, R.Init(), [x]) && One(s.wire, x) + One(s.wire, x) in s.network
    ensures Leads(s, [Deliver(One(s.wire, x) + One(s.wire, x))] + ([ReadData(5, 4)] + []), end)
    ensures 5 in end.delivered && |end.delivered[5]| == 4 && end.contents == map[5 := [x]]
  {
    var twice := One(s.wire, x) + One(s.wire, x);
    var f := Single(x).(data := [x] + One(s.wire, x));
    DoubledPacket(s.wire, x);
    MergedRead(f);
    var reader := R.AddFrame(R.Init(), f).0;
    var s1 := ArrivesAs(s, R.Init(), [x], f, reader, twice);
    end := ReadsAs(s1, reader, [x], 4, R.Read(reader, 4));
    LeadsNowhere(end);
    LeadsCons(s1, ReadData(5, 4), end, [], end);
    LeadsCons(s, Deliver(twice), s1, [ReadData(5, 4)] + [], end);
  }

  /** From the first packet on. */
  lemma {:induction false} SecondHalf(s: System, x: byte) returns (end: System)
    requires Sending(s, [Single(x)], [], [x])
    ensures Leads(s, [Requeue(0)] + ([Requeue(0)] + ([Emit([], 100)] +
      ([Deliver(One(s.wire, x) + One(s.wire, x))] + ([ReadData(5, 4)] + [])))), end)
    ensures 5 in end.delivered && |end.delivered[5]| == 4 && end.contents == map[5 := [x]]
  {
    var twice := Deliver(One(s.wire, x) + One(s.wire, x));
    var s4 := QueueStep(s, [Single(x)], [], [x]);
    var s5 := QueueStep(s4, [Single(x)], [0], [x]);
    assert [] + [0] == [0] && [0] + [0] == [0, 0];
    var s6 := SecondPacket(s5, x);
    end := Arrival(s6, x);
    LeadsCons(s5, Emit([], 100), s6, [twice] + ([ReadData(5, 4)] + []), end);
    LeadsCons(s4, Requeue(0), s5, [Emit([], 100)] + ([twice] + ([ReadData(5, 4)] + [])), end);
    LeadsCons(s, Requeue(0), s4, [Requeue(0)] + ([Emit([], 100)] + ([twice] + ([ReadData(5, 4)] + []))), end);
  }

  /**
    Both entries go into one packet, and clearing the length field of the last one clears it on both. The reader is
    then given bytes that nobody wrote.
   */
  lemma {:induction false} QueuedTwiceRun(wire: Order, x: byte)
    ensures var s := Run(Init(wire, NEGOTIATED, 100, 100), TwiceSteps(wire, x));
      5 in s.delivered && s.contents == map[5 := [x]] && !(s.delivered[5] <= s.contents[5])
  {
    var s1 := OpenSteps(wire, [x]);
    var s3 := FirstStep(wire, [x], false);
    var end := SecondHalf(s3, x);
    var rest := [Requeue(0)] + ([Requeue(0)] + ([Emit([], 100)] +
      ([Deliver(One(wire, x) + One(wire, x))] + ([ReadData(5, 4)] + []))));
    LeadsCons(OpenedSystem(wire, [x], false), Emit([5], 100), s3, rest, end);
    LeadsCons(s1, WriteData(5, [x]), OpenedSystem(wire, [x], false), [Emit([5], 100)] + rest, end);
    LeadsCons(Init(wire, NEGOTIATED, 100, 100), OpenStream(5, true, 100, 100), s1,
      [WriteData(5, [x])] + ([Emit([5], 100)] + rest), end);
  }
}
