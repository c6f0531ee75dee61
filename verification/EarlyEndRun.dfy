/**
  A run that ends too early: a finished stream's only frame is split for retransmission (quic-go/stream_framer.go),
  and its second part arrives before the frame itself, whose FIN then stands in the middle
  (quic-go/stream_frame_sorter.go). No frame is ever queued twice.
 */
module EarlyEndRun {
  import opened Basics
  import opened ByteOrder
  import opened StreamFrames
  import opened StreamDelivery
  import opened DeliverySteps
  import Codec = StreamFrameCodec
  import E = StreamEnd
  import F = StreamFramer
  import P = PacketPacker
  import S = StreamFrameSorter
  import R = ReceiveStream

  // ----- The frames -----

  function Whole(x: byte, y: byte): StreamFrame {
    FirstFrame([x, y], true).(dataLenPresent := false)
  }

  function Head(x: byte): StreamFrame {
    StreamFrame(5, false, false, 0, [x])
  }

  function Tail(y: byte, dataLenPresent: bool): StreamFrame {
    StreamFrame(5, true, dataLenPresent, 1, [y])
  }

  lemma {:induction false} SplitParts(x: byte, y: byte)
    ensures F.SplitOff(FirstFrame([x, y], true), 1) == (Head(x).(dataLenPresent := true), Tail(y, true))
  {
    assert [x, y][..1] == [x] && [x, y][1..] == [y];
  }

  /** With space for one byte the frame is cut in two. */
  lemma {:induction false} SplitPopped(x: byte, y: byte)
    ensures F.Refers([0], 1)
    ensures F.PopRetransmissions([Whole(x, y)], [0], 5)
      == F.Taken([Tail(y, true), Head(x).(dataLenPresent := true)], [1], [0], 5)
  {
    var f, marked := Whole(x, y), FirstFrame([x, y], true);
    assert F.Marked([f], 0) == [marked];
    assert F.TakeWhole([f], [0], 0, 5) == F.Taken([marked], [], [0], 0) by {
      F.TakeWholeUnfolds([f], [0], 0, 5);
    }
    SplitParts(x, y);
    assert [marked][0 := Tail(y, true)] + [Head(x).(dataLenPresent := true)]
      == [Tail(y, true), Head(x).(dataLenPresent := true)];
    assert [] + [1] == [1];
  }

  /** What is left of the frame is sent next. */
  lemma {:induction false} TailPopped(x: byte, y: byte)
    ensures F.Refers([0], 2)
    ensures F.PopRetransmissions([Tail(y, true), Head(x)], [0], 102) == F.Taken([Tail(y, true), Head(x)], [0], [], 7)
  {
    var store := [Tail(y, true), Head(x)];
    assert F.Marked(store, 0) == store && [0][1..] == [];
    F.TakeWholeUnfolds(store, [0], 0, 102);
    assert F.TakeWhole(store, [], 7, 102) == F.Taken(store, [], [], 7);
    assert [0] + [] == [0];
  }

  // ----- The packets -----

  lemma {:induction false} HeadFilled(s: System, x: byte, y: byte)
    requires Sending(s, [Whole(x, y)], [0], [x, y])
    ensures P.ComposeData(s.framer, [], 5, s.negotiated).1 == [1]
    ensures var s' := Filled(s, [], 3); Sending(s', [Tail(y, true), Head(x)], [0], [x, y]) && s'.wire == s.wire
  {
    SplitPopped(x, y);
    OnlyRetransmissions(s.framer, 5, s.negotiated, P.ComposeData(s.framer, [], 5, s.negotiated),
      F.PopRetransmissions(s.framer.store, s.framer.queue, 5));
    SameContents(s.framer, 5, s.negotiated, s.contents);
    assert [Tail(y, true), Head(x).(dataLenPresent := true)][1 := Head(x)] == [Tail(y, true), Head(x)];
  }

  lemma {:induction false} TailFilled(s: System, x: byte, y: byte)
    requires Sending(s, [Tail(y, true), Head(x)], [0], [x, y])
    ensures P.ComposeData(s.framer, [], 102, s.negotiated).1 == [0]
    ensures var s' := Filled(s, [], 100); Sending(s', [Tail(y, false), Head(x)], [], [x, y]) && s'.wire == s.wire
  {
    TailPopped(x, y);
    OnlyRetransmissions(s.framer, 102, s.negotiated, P.ComposeData(s.framer, [], 102, s.negotiated),
      F.PopRetransmissions(s.framer.store, s.framer.queue, 102));
    SameContents(s.framer, 102, s.negotiated, s.contents);
    assert [Tail(y, true), Head(x)][0 := Tail(y, false)] == [Tail(y, false), Head(x)];
  }

  lemma {:induction false} HeadPacket(s: System, x: byte, y: byte) returns (next: System)
    requires Sending(s, [Whole(x, y)], [0], [x, y])
    ensures Goes(s, Emit([], 3), next) && Sending(next, [Tail(y, true), Head(x)], [0], [x, y])
    ensures next.wire == s.wire && s.network <= next.network
  {
    HeadFilled(s, x, y);
    var s' := Filled(s, [], 3);
    assert F.Frames([Tail(y, true), Head(x)], [1]) == [Head(x)];
    Emits(s, [], 3, [1], [Head(x)]);
    assert !TooLong(s'.contents);
    SendsFrame(s', Head(x), 3);
    next := s'.(network := s'.network + {Codec.Write(s.wire, Head(x)).value});
  }

  lemma {:induction false} TailPacket(s: System, x: byte, y: byte) returns (next: System)
    requires Sending(s, [Tail(y, true), Head(x)], [0], [x, y])
    ensures Goes(s, Emit([], 100), next) && Sending(next, [Tail(y, false), Head(x)], [], [x, y])
    ensures next.wire == s.wire && s.network <= next.network
    ensures Codec.Write(s.wire, Tail(y, false)).Some? && Codec.Write(s.wire, Tail(y, false)).value in next.network
  {
    TailFilled(s, x, y);
    var s' := Filled(s, [], 100);
    assert F.Frames([Tail(y, false), Head(x)], [0]) == [Tail(y, false)];
    Emits(s, [], 100, [0], [Tail(y, false)]);
    assert !TooLong(s'.contents);
    SendsFrame(s', Tail(y, false), 100);
    next := s'.(network := s'.network + {Codec.Write(s.wire, Tail(y, false)).value});
  }

  // ----- The reader -----

  /** The reader once the second part has arrived, and once the whole frame has. */
  ghost predicate Readers(first: R.State, second: R.State, x: byte, y: byte) {
    && S.GapsFrom(-1, first.sorter.gaps)
    && R.AddFrame(R.Init(), Tail(y, false)) == (first, true)
    && R.AddFrame(first, Whole(x, y)) == (second, true)
    && R.Read(second, 2).st.finished && R.Read(second, 2).data == [x]
  }

  lemma {:induction false} EarlyReaders(x: byte, y: byte) returns (first: R.State, second: R.State)
    ensures Readers(first, second, x, y)
  {
    S.EarlyEndOfStream(5, x, y, false);
    first := R.AddFrame(R.Init(), Tail(y, false)).0;
    second := R.AddFrame(first, Whole(x, y)).0;
    EarlyRead(second, x);
  }

  lemma {:induction false} EarlyRead(reader: R.State, x: byte)
    requires reader.sorter.readPosition == 0 && reader.readOffset == 0 && !reader.finished
    requires S.Popped(reader.sorter).1 == Some(StreamFrame(5, true, false, 0, [x]))
    ensures R.Read(reader, 2).st.finished && R.Read(reader, 2).data == [x]
  {
    R.ReadUnfolds(reader, 2);
    assert [x][0..1] == [x] && [x] + [] == [x];
  }

  // ----- The run -----

  /** Send two bytes with the FIN, send them again in two parts, and let the second part come first. */
  function EarlySteps(wire: Order, x: byte, y: byte): seq<Step> {
    [OpenStream(5, true, 100, 100)]
    + ([WriteData(5, [x, y])] + ([CloseStream(5)] + ([Emit([5], 100)] + Again(wire, x, y))))
  }

  function Again(wire: Order, x: byte, y: byte): seq<Step> {
    [Requeue(0)] + ([Emit([], 3)] + ([Emit([], 100)] + Arriving(wire, x, y)))
  }

  function Arriving(wire: Order, x: byte, y: byte): seq<Step> {
    if Codec.Write(wire, Tail(y, false)).None? || Codec.Write(wire, Whole(x, y)).None? then []
    else
      [Deliver(Codec.Write(wire, Tail(y, false)).value)] + ([Deliver(Codec.Write(wire, Whole(x, y)).value)] +
      ([ReadData(5, 2)] + []))
  }

  lemma {:induction false} Arrivals(
    s: System, x: byte, y: byte, first: R.State, second: R.State, tail: seq<byte>, whole: seq<byte>)
    returns (end: System)
    requires Reading(s, R.Init(), [x, y]) && Readers(first, second, x, y)
    requires tail in s.network && Codec.Write(s.wire, Tail(y, false)) == Some(tail)
    requires whole in s.network && Codec.Write(s.wire, Whole(x, y)) == Some(whole)
    ensures LeadsOnce(s, [Deliver(tail)] + ([Deliver(whole)] + ([ReadData(5, 2)] + [])), end)
    ensures 5 in end.readers && end.readers[5].finished
    ensures end.delivered == map[5 := [x]] && end.contents == map[5 := [x, y]]
  {
    OneFrame(s.wire, Tail(y, false));
    OneFrame(s.wire, Whole(x, y));
    var s1 := ArrivesAs(s, R.Init(), [x, y], Tail(y, false), first, tail);
    var s2 := ArrivesAs(s1, first, [x, y], Whole(x, y), second, whole);
    end := ReadsAs(s2, second, [x, y], 2, R.Read(second, 2));
    OnceNowhere(end);
    OnceCons(s2, ReadData(5, 2), end, [], end);
    OnceCons(s1, Deliver(whole), s2, [ReadData(5, 2)] + [], end);
    OnceCons(s, Deliver(tail), s1, [Deliver(whole)] + ([ReadData(5, 2)] + []), end);
  }

  lemma {:induction false} LastHalf(s: System, x: byte, y: byte) returns (end: System)
    requires Sending(s, [Tail(y, false), Head(x)], [], [x, y])
    requires Codec.Write(s.wire, Tail(y, false)).Some? && Codec.Write(s.wire, Tail(y, false)).value in s.network
    requires Codec.Write(s.wire, Whole(x, y)).Some? && Codec.Write(s.wire, Whole(x, y)).value in s.network
    ensures LeadsOnce(s, Arriving(s.wire, x, y), end)
    ensures 5 in end.readers && end.readers[5].finished
    ensures end.delivered == map[5 := [x]] && end.contents == map[5 := [x, y]]
  {
    var first, second := EarlyReaders(x, y);
    end := Arrivals(s, x, y, first, second,
      Codec.Write(s.wire, Tail(y, false)).value, Codec.Write(s.wire, Whole(x, y)).value);
  }

  lemma {:induction false} MiddleHalf(s: System, x: byte, y: byte) returns (end: System)
    requires Sending(s, [Whole(x, y)], [], [x, y])
    requires Codec.Write(s.wire, Whole(x, y)).Some? && Codec.Write(s.wire, Whole(x, y)).value in s.network
    ensures LeadsOnce(s, Again(s.wire, x, y), end)
    ensures 5 in end.readers && end.readers[5].finished
    ensures end.delivered == map[5 := [x]] && end.contents == map[5 := [x, y]]
  {
    var s1 := QueueStep(s, [Whole(x, y)], [], [x, y]);
    assert [] + [0] == [0];
    var s2 := HeadPacket(s1, x, y);
    var s3 := TailPacket(s2, x, y);
    end := LastHalf(s3, x, y);
    var rest := Arriving(s.wire, x, y);
    OnceCons(s2, Emit([], 100), s3, rest, end);
    OnceCons(s1, Emit([], 3), s2, [Emit([], 100)] + rest, end);
    OnceCons(s, Requeue(0), s1, [Emit([], 3)] + ([Emit([], 100)] + rest), end);
  }

  lemma {:induction false} EarlyRun(wire: Order, x: byte, y: byte)
    ensures AllQueuedOnce(Init(wire, NEGOTIATED, 100, 100), EarlySteps(wire, x, y))
    ensures var s := Run(Init(wire, NEGOTIATED, 100, 100), EarlySteps(wire, x, y));
      && 5 in s.readers && s.readers[5].finished
      && s.delivered == map[5 := [x]] && s.contents == map[5 := [x, y]]
  {
    var s1 := OpenSteps(wire, [x, y]);
    Closed(wire, [x, y]);
    var s4 := FirstStep(wire, [x, y], true);
    var end := MiddleHalf(s4, x, y);
    var open, closed := OpenedSystem(wire, [x, y], false), OpenedSystem(wire, [x, y], true);
    var rest := Again(wire, x, y);
    OnceCons(closed, Emit([5], 100), s4, rest, end);
    OnceCons(open, CloseStream(5), closed, [Emit([5], 100)] + rest, end);
    OnceCons(s1, WriteData(5, [x, y]), open, [CloseStream(5)] + ([Emit([5], 100)] + rest), end);
    OnceCons(Init(wire, NEGOTIATED, 100, 100), OpenStream(5, true, 100, 100), s1,
      [WriteData(5, [x, y])] + ([CloseStream(5)] + ([Emit([5], 100)] + rest)), end);
  }

  /**
    No frame is queued twice, and yet the reader sees the end of the stream after one byte of two: a frame with a FIN
    is stored too late.
   */
  lemma {:induction false} SplitEndsEarly(wire: Order, x: byte, y: byte)
    ensures AllQueuedOnce(Init(wire, NEGOTIATED, 100, 100), EarlySteps(wire, x, y))
    ensures !E.RunInTime(Init(wire, NEGOTIATED, 100, 100), EarlySteps(wire, x, y))
    ensures var s := Run(Init(wire, NEGOTIATED, 100, 100), EarlySteps(wire, x, y));
      && 5 in s.readers && s.readers[5].finished
      && s.delivered == map[5 := [x]] && s.contents == map[5 := [x, y]]
  {
    EarlyRun(wire, x, y);
    var steps := EarlySteps(wire, x, y);
    assert AllSeparate(Init(wire, NEGOTIATED, 100, 100), steps) by {
      QueuedOnceSafety(wire, NEGOTIATED, 100, 100, steps, 5);
    }
    E.EndMeansAll(wire, NEGOTIATED, 100, 100, steps, 5);
    assert |[x]| != |[x, y]|;
  }
}
