/**
  Filling a packet (quic-go/packet_packer.go): acknowledgements first, then queued control frames from the
  last one down, then STREAM frames into the space that is left. The public header and the sealer are
  represented by their lengths. STREAM frames are objects of the framer's store, changed in place.
 */
module PacketPacker {
  import opened Basics
  import opened IdLists
  import opened ByteOrder
  import opened StreamFrames
  import opened ControlFrames
  import Codec = StreamFrameCodec
  import FC = FlowControlManager
  import F = StreamFramer

  datatype State = State(stopWaiting: Option<Control>, ack: Option<Control>, controls: seq<Control>, framer: F.State)

  datatype Error = NoLength | PayloadTooLarge | FrameNotWritable | PacketTooLarge

  ghost predicate AllProper(cs: seq<Control>) {
    cs == [] || (Proper(cs[|cs| - 1]) && AllProper(cs[..|cs| - 1]))
  }

  ghost predicate Valid(st: State) {
    && (st.stopWaiting.Some? ==> Proper(st.stopWaiting.value))
    && (st.ack.Some? ==> Proper(st.ack.value))
    && AllProper(st.controls)
    && F.Refers(st.framer.queue, |st.framer.store|)
  }

  // ----- Composing -----

  /** Control frames taken from the end of the queue while they fit. */
  datatype Controls = Controls(taken: seq<Control>, left: seq<Control>, used: nat)

  function TakeControls(controls: seq<Control>, used: nat, maxSize: nat): Result<Controls, Error>
    requires AllProper(controls)
    decreases |controls|
  {
    if controls == [] then Ok(Controls([], [], used))
    else
      var c, rest := controls[|controls| - 1], controls[..|controls| - 1];
      match MinLength(c)
      case None => Err(NoLength)
      case Some(n) =>
        if used + n > maxSize then Ok(Controls([], controls, used))
        else
          var more :- TakeControls(rest, used + n, maxSize);
          Ok(more.(taken := [c] + more.taken))
  }

  /** STOP_WAITING and ACK are always put into the packet. */
  function TakeFirst(st: State): Result<(seq<Control>, nat), Error>
    requires Valid(st)
  {
    var stop := if st.stopWaiting.None? then Some(0) else MinLength(st.stopWaiting.value);
    var ack := if st.ack.None? then Some(0) else MinLength(st.ack.value);
    if stop.None? || ack.None? then Err(NoLength)
    else Ok((
      (if st.stopWaiting.None? then [] else [st.stopWaiting.value]) + (if st.ack.None? then [] else [st.ack.value]),
      stop.value + ack.value))
  }

  /**
    The last frame needs no length field: it ends with the packet. The field is cleared on the object, so that
    every entry of the packet that is the same object loses it.
   */
  function ClearLast(store: F.Store, ids: seq<nat>): (r: F.Store)
    requires F.Refers(ids, |store|)
    ensures |r| == |store|
  {
    if ids == [] then store
    else
      LastRefers(ids, |store|);
      store[Last(ids) := store[Last(ids)].(dataLenPresent := false)]
  }

  function Last(ids: seq<nat>): nat
    requires ids != []
  {
    ids[|ids| - 1]
  }

  lemma {:induction false} LastRefers(ids: seq<nat>, n: nat)
    requires F.Refers(ids, n) && ids != []
    ensures Last(ids) < n
  {
    F.RefersIn(ids, n, Last(ids));
  }

  /** An earlier entry of the packet is the same object as the last one. */
  predicate SharesLast(ids: seq<nat>) {
    ids != [] && Last(ids) in ids[..|ids| - 1]
  }

  /** The STREAM frames for `space` bytes, the last one without its length field. */
  function ComposeData(framer: F.State, order: seq<nat>, space: nat, negotiated: FC.Negotiated)
    : (r: (F.State, seq<nat>))
    requires F.Refers(framer.queue, |framer.store|)
    ensures F.Refers(r.1, |r.0.store|) && F.Refers(r.0.queue, |r.0.store|)
  {
    var (framer', ids) := F.PopStreamFrames(framer, order, space, negotiated);
    F.PoppedFrames(framer, order, space, negotiated);
    (framer'.(store := ClearLast(framer'.store, ids)), ids)
  }

  /** The control frames, and the names of the STREAM frames. */
  datatype Payload = Payload(controls: seq<Control>, ids: seq<nat>)

  /** The control frames that go into the packet, those that stay queued, and the space taken. */
  function ComposeControls(st: State, maxSize: nat): Result<Controls, Error>
    requires Valid(st)
  {
    var (first, used) :- TakeFirst(st);
    var taken :- TakeControls(st.controls, used, maxSize);
    if taken.used > maxSize then Err(PayloadTooLarge) else Ok(taken.(taken := first + taken.taken))
  }

  /**
    Two bytes more than there are may be filled with STREAM frames, since they are all counted with a length
    field and the last one loses it.
   */
  function DataSpace(st: State, maxSize: nat): nat
    requires Valid(st)
  {
    var c := ComposeControls(st, maxSize);
    if c.Ok? && c.value.used <= maxSize then maxSize + 2 - c.value.used else 0
  }

  /** What the framer puts into the packet. */
  function DataFor(st: State, maxSize: nat, order: seq<nat>, negotiated: FC.Negotiated): (F.State, seq<nat>)
    requires Valid(st)
  {
    ComposeData(st.framer, order, DataSpace(st, maxSize), negotiated)
  }

  /** BLOCKED frames that come up are queued behind the control frames. */
  function AddData(st: State, framer: F.State): State {
    st.(controls := st.controls + BlockedFrames(framer.blocked), framer := framer.(blocked := []))
  }

  /** A packet with the STREAM frames that the framer composes for the space left. */
  function Compose(
    st: State, maxSize: nat, canSendData: bool, data: (F.State, seq<nat>)): Result<(State, Payload), Error>
    requires Valid(st)
  {
    match ComposeControls(st, maxSize)
    case Err(e) => Err(e)
    case Ok(c) => Ok(ComposeRest(st.(controls := c.left), c, canSendData, data))
  }

  /** The control frames are taken: STREAM frames may follow. */
  function ComposeRest(left: State, c: Controls, canSendData: bool, data: (F.State, seq<nat>)): (State, Payload) {
    if canSendData then (AddData(left, data.0), Payload(c.taken, data.1)) else (left, Payload(c.taken, []))
  }

  // ----- What is written -----

  function ControlBytes(order: Order, cs: seq<Control>): Option<seq<byte>>
    requires AllProper(cs)
    decreases |cs|
  {
    if cs == [] then Some([])
    else
      var rest, last := ControlBytes(order, cs[..|cs| - 1]), Write(order, cs[|cs| - 1]);
      if rest.None? || last.None? then None else Some(rest.value + last.value)
  }

  function DataBytes(order: Order, fs: seq<StreamFrame>): Option<seq<byte>> {
    if fs == [] then Some([])
    else
      var first, rest := Codec.Write(order, fs[0]), DataBytes(order, fs[1..]);
      if first.None? || rest.None? then None else Some(first.value + rest.value)
  }

  lemma {:induction false} DataLength(order: Order, fs: seq<StreamFrame>)
    requires DataBytes(order, fs).Some?
    ensures |DataBytes(order, fs).value| == F.TotalLength(fs)
  {
    if fs != [] {
      Codec.LengthWritten(order, fs[0]);
      DataLength(order, fs[1..]);
    }
  }

  lemma {:induction false} WrittenLength(order: Order, fs: seq<StreamFrame>)
    ensures DataBytes(order, fs).Some? ==> |DataBytes(order, fs).value| == F.TotalLength(fs)
  {
    if DataBytes(order, fs).Some? {
      DataLength(order, fs);
    }
  }

  /** No PATHS frame whose length is computed wrongly. */
  ghost predicate LengthsExact(cs: seq<Control>) {
    cs == [] ||
    (var c := cs[|cs| - 1]; (c.Paths? ==> |c.paths| <= 84) && LengthsExact(cs[..|cs| - 1]))
  }

  function Lengths(cs: seq<Control>): Option<nat>
    requires AllProper(cs)
    decreases |cs|
  {
    if cs == [] then Some(0)
    else
      var rest, last := Lengths(cs[..|cs| - 1]), MinLength(cs[|cs| - 1]);
      if rest.None? || last.None? then None else Some(rest.value + last.value)
  }

  lemma {:induction false} ControlLength(order: Order, cs: seq<Control>)
    requires AllProper(cs) && LengthsExact(cs) && ControlBytes(order, cs).Some? && Lengths(cs).Some?
    ensures |ControlBytes(order, cs).value| == Lengths(cs).value
    decreases |cs|
  {
    if cs != [] {
      ControlLength(order, cs[..|cs| - 1]);
      LengthWritten(order, cs[|cs| - 1]);
    }
  }

  lemma {:induction false} PushControl(cs: seq<Control>, c: Control)
    requires AllProper(cs) && Proper(c)
    ensures AllProper(cs + [c])
    ensures Lengths(cs).Some? && MinLength(c).Some? ==>
      Lengths(cs + [c]) == Some(Lengths(cs).value + MinLength(c).value)
  {
    assert (cs + [c])[..|cs|] == cs;
  }

  lemma {:induction false} TakeUnfolds(controls: seq<Control>, used: nat, maxSize: nat)
    requires AllProper(controls) && controls != [] && TakeControls(controls, used, maxSize).Ok?
    ensures var c, rest := controls[|controls| - 1], controls[..|controls| - 1];
      && MinLength(c).Some?
      && var n := MinLength(c).value;
      if used + n > maxSize then TakeControls(controls, used, maxSize).value == Controls([], controls, used)
      else
        var more := TakeControls(rest, used + n, maxSize);
        more.Ok? && TakeControls(controls, used, maxSize).value == more.value.(taken := [c] + more.value.taken)
  {
  }

  ghost predicate Counted(cs: seq<Control>, used: nat) {
    AllProper(cs) && Lengths(cs) == Some(used)
  }

  lemma {:induction false} CountedPush(cs: seq<Control>, used: nat, c: Control, n: nat)
    requires Counted(cs, used) && Proper(c) && MinLength(c) == Some(n)
    ensures Counted(cs + [c], used + n)
  {
    PushControl(cs, c);
  }

  /** What is taken was counted. */
  lemma {:induction false} TakenFits(before: seq<Control>, controls: seq<Control>, used: nat, maxSize: nat)
    requires Counted(before, used) && AllProper(controls) && TakeControls(controls, used, maxSize).Ok?
    ensures var r := TakeControls(controls, used, maxSize).value; Counted(before + r.taken, r.used) && AllProper(r.left)
    decreases |controls|
  {
    if controls == [] {
      assert before + [] == before;
    } else {
      var c, rest := controls[|controls| - 1], controls[..|controls| - 1];
      TakeUnfolds(controls, used, maxSize);
      var n := MinLength(c).value;
      if used + n > maxSize {
        assert before + [] == before;
      } else {
        CountedPush(before, used, c, n);
        TakenFits(before + [c], rest, used + n, maxSize);
        Associate(before, [c], TakeControls(rest, used + n, maxSize).value.taken);
      }
    }
  }

  lemma {:induction false} FirstFits(st: State)
    requires Valid(st) && TakeFirst(st).Ok?
    ensures var (first, used) := TakeFirst(st).value; AllProper(first) && Lengths(first) == Some(used)
  {
    if st.stopWaiting.Some? {
      PushControl([], st.stopWaiting.value);
      assert [] + [st.stopWaiting.value] == [st.stopWaiting.value];
    }
    var stop := if st.stopWaiting.None? then [] else [st.stopWaiting.value];
    if st.ack.Some? {
      PushControl(stop, st.ack.value);
    }
  }

  /** Clearing the last length field saves two bytes, or more if the frame stands in the packet several times. */
  lemma {:induction false} ClearSavesTwo(store: F.Store, ids: seq<nat>)
    requires F.Refers(ids, |store|) && ids != [] && F.Delimited(F.Frames(store, ids))
    ensures var was, now := F.TotalLength(F.Frames(store, ids)), F.TotalLength(F.Frames(ClearLast(store, ids), ids));
      now + 2 <= was && (!SharesLast(ids) ==> now + 2 == was)
  {
    var front, x := ids[..|ids| - 1], Last(ids);
    LastRefers(ids, |store|);
    assert ids == front + [x];
    F.RefersAppend(front, [x], |store|);
    var v := store[x].(dataLenPresent := false);
    F.TakenOneMore(store, front, x);
    F.TakenOneMore(store[x := v], front, x);
    F.LengthAppend(F.Frames(store, front), [store[x]]);
    F.LengthAppend(F.Frames(store[x := v], front), [v]);
    F.LengthCons(store[x], []);
    F.LengthCons(v, []);
    F.LengthUpdate(store, front, x, v);
  }

  /** What happens to the retransmission queue when `space` bytes are filled. */
  function Taken(framer: F.State, space: nat): F.Taken
    requires F.Refers(framer.queue, |framer.store|)
  {
    F.TakeWhole(framer.store, framer.queue, 0, space)
  }

  /** If a frame in the packet grows by being cut, the packet ends with the part cut off, a frame of its own. */
  lemma {:induction false} OverflowEndsPacket(framer: F.State, order: seq<nat>, space: nat, negotiated: FC.Negotiated)
    requires F.Refers(framer.queue, |framer.store|) && F.Overflows(Taken(framer, space), space)
    ensures var ids := F.PopStreamFrames(framer, order, space, negotiated).1; ids != [] && !SharesLast(ids)
  {
    var t, r := Taken(framer, space), F.PopRetransmissions(framer.store, framer.queue, space);
    F.RetransmissionsFit(framer.store, framer.queue, space);
    F.WalkFits(F.AfterRetransmissions(framer, space), order, 0, 0, negotiated);
    var made := F.NewFrames(framer, order, space, negotiated).frames;
    assert made == [] && r.ids + F.Range(|r.store|, 0) == r.ids;
    assert r.ids == t.ids + [|t.store|] && r.ids[..|r.ids| - 1] == t.ids;
    if |t.store| in t.ids {
      F.RefersIn(t.ids, |t.store|, |t.store|);
    }
  }

  /**
    The two extra bytes are given back: the STREAM frames fit behind `used` bytes of control frames, if and only
    if no frame that stands in the packet already grows by being cut.
   */
  lemma {:induction false} DataFits(
    framer: F.State, order: seq<nat>, used: nat, maxSize: nat, negotiated: FC.Negotiated, space: nat,
    composed: (F.State, seq<nat>))
    requires F.Refers(framer.queue, |framer.store|) && used <= maxSize && space + used == maxSize + 2
    requires composed == ComposeData(framer, order, space, negotiated)
    ensures used + F.TotalLength(F.Frames(composed.0.store, composed.1)) <= maxSize
      <==> !F.Overflows(Taken(framer, space), space)
  {
    var (popped, ids) := F.PopStreamFrames(framer, order, space, negotiated);
    PoppedFills(framer, order, space, negotiated);
    ClearedFits(popped.store, ids, used, maxSize, space, F.Overflows(Taken(framer, space), space));
  }

  lemma {:induction false} PoppedFills(framer: F.State, order: seq<nat>, space: nat, negotiated: FC.Negotiated)
    requires F.Refers(framer.queue, |framer.store|)
    ensures var (popped, ids) := F.PopStreamFrames(framer, order, space, negotiated);
      Popped(popped.store, ids, space, F.Overflows(Taken(framer, space), space))
  {
    F.PopFits(framer, order, space, negotiated);
    if F.Overflows(Taken(framer, space), space) {
      OverflowEndsPacket(framer, order, space, negotiated);
    }
  }

  /** Frames that fill `space` bytes, or more if one of them grows. */
  ghost predicate Popped(store: F.Store, ids: seq<nat>, space: nat, overflows: bool) {
    && F.Refers(ids, |store|)
    && F.Delimited(F.Frames(store, ids))
    && (F.TotalLength(F.Frames(store, ids)) <= space <==> !overflows)
    && (overflows ==> ids != [] && !SharesLast(ids))
  }

  lemma {:induction false} ClearedFits(
    store: F.Store, ids: seq<nat>, used: nat, maxSize: nat, space: nat, overflows: bool)
    requires used <= maxSize && space + used == maxSize + 2 && Popped(store, ids, space, overflows)
    ensures used + F.TotalLength(F.Frames(ClearLast(store, ids), ids)) <= maxSize <==> !overflows
  {
    if ids != [] {
      ClearSavesTwo(store, ids);
    }
  }

  lemma {:induction false} SecondWaits(f: StreamFrame, used: nat, space: nat)
    requires f.dataLenPresent && !F.Fits(f, used, space)
    ensures F.Refers([0], 1) && F.TakeWhole([f], [0], used, space) == F.Taken([f], [], [0], used)
  {
    assert F.Marked([f], 0) == [f];
    F.TakeWholeUnfolds([f], [0], used, space);
  }

  /** A frame at offset zero that is queued twice, with space for one byte of the second entry. */
  lemma {:induction false} CutWhileTaken(data: seq<byte>)
    requires |data| >= 2
    ensures var f := StreamFrame(5, false, true, 0, data);
      var space := F.Length(f) + 5;
      F.Refers([0, 0], 1) && F.Overflows(F.TakeWhole([f], [0, 0], 0, space), space)
  {
    var f := StreamFrame(5, false, true, 0, data);
    var space := F.Length(f) + 5;
    assert [0, 0][1..] == [0] && F.Marked([f], 0) == [f];
    SecondWaits(f, F.Length(f), space);
    assert F.TakeWhole([f], [0, 0], 0, space) == F.Taken([f], [0], [0], F.Length(f)) by {
      F.TakeWholeUnfolds([f], [0, 0], 0, space);
    }
  }

  /** A packet that cuts a frame it holds already, so that this grows, is longer than its space. */
  lemma {:induction false} CutTooLarge(
    wire: Order, framer: F.State, order: seq<nat>, negotiated: FC.Negotiated, maxSize: nat,
    composed: (F.State, seq<nat>))
    requires F.Refers(framer.queue, |framer.store|) && F.Overflows(Taken(framer, maxSize + 2), maxSize + 2)
    requires composed == ComposeData(framer, order, maxSize + 2, negotiated)
    ensures F.TotalLength(F.Frames(composed.0.store, composed.1)) > maxSize
    ensures var bytes := DataBytes(wire, F.Frames(composed.0.store, composed.1));
      bytes.Some? ==> |bytes.value| > maxSize
  {
    DataFits(framer, order, 0, maxSize, negotiated, maxSize + 2, composed);
    WrittenLength(wire, F.Frames(composed.0.store, composed.1));
  }

  /** A frame of two or more bytes at offset zero that is queued twice: the packet becomes too large. */
  lemma {:induction false} QueuedTwiceGrows(
    wire: Order, framer: F.State, data: seq<byte>, order: seq<nat>, negotiated: FC.Negotiated, maxSize: nat,
    composed: (F.State, seq<nat>))
    requires |data| >= 2 && framer.store == [StreamFrame(5, false, true, 0, data)] && framer.queue == [0, 0]
    requires maxSize == F.Length(framer.store[0]) + 3 && F.Refers(framer.queue, |framer.store|)
    requires composed == ComposeData(framer, order, maxSize + 2, negotiated)
    ensures F.TotalLength(F.Frames(composed.0.store, composed.1)) > maxSize
    ensures var bytes := DataBytes(wire, F.Frames(composed.0.store, composed.1));
      bytes.Some? ==> |bytes.value| > maxSize
  {
    assert F.Overflows(Taken(framer, maxSize + 2), maxSize + 2) by {
      CutWhileTaken(data);
    }
    CutTooLarge(wire, framer, order, negotiated, maxSize, composed);
  }

  lemma {:induction false} ComposedControls(st: State, maxSize: nat)
    requires Valid(st) && ComposeControls(st, maxSize).Ok?
    ensures var c := ComposeControls(st, maxSize).value;
      Counted(c.taken, c.used) && c.used <= maxSize && AllProper(c.left)
  {
    FirstFits(st);
    var (first, used) := TakeFirst(st).value;
    TakenFits(first, st.controls, used, maxSize);
  }

  /** A frame that stands in the packet already grows by being cut. */
  predicate Grows(st: State, maxSize: nat)
    requires Valid(st)
  {
    F.Overflows(Taken(st.framer, DataSpace(st, maxSize)), DataSpace(st, maxSize))
  }

  /** The payload fills its space, or more if one of its frames grows. */
  ghost predicate Fills(store: F.Store, payload: Payload, maxSize: nat, grows: bool) {
    && AllProper(payload.controls) && Lengths(payload.controls).Some?
    && F.Refers(payload.ids, |store|)
    && (Lengths(payload.controls).value + F.TotalLength(F.Frames(store, payload.ids)) <= maxSize <==> !grows)
  }

  lemma {:induction false} ComposedFits(
    st: State, maxSize: nat, canSendData: bool, data: (F.State, seq<nat>), grows: bool)
    requires Valid(st) && Compose(st, maxSize, canSendData, data).Ok? && F.Refers(data.1, |data.0.store|)
    requires var used := ComposeControls(st, maxSize).value.used;
      used + F.TotalLength(F.Frames(data.0.store, data.1)) <= maxSize <==> !grows
    ensures var (st', payload) := Compose(st, maxSize, canSendData, data).value;
      Fills(st'.framer.store, payload, maxSize, canSendData && grows)
  {
    ComposedControls(st, maxSize);
  }

  lemma {:induction false} ComposedData(
    st: State, maxSize: nat, order: seq<nat>, negotiated: FC.Negotiated, used: nat, space: nat,
    data: (F.State, seq<nat>))
    requires Valid(st) && ComposeControls(st, maxSize).Ok? && used == ComposeControls(st, maxSize).value.used
    requires space == DataSpace(st, maxSize) && data == ComposeData(st.framer, order, space, negotiated)
    ensures F.Refers(data.1, |data.0.store|)
    ensures used + F.TotalLength(F.Frames(data.0.store, data.1)) <= maxSize
      <==> !F.Overflows(Taken(st.framer, space), space)
  {
    assert space == maxSize + 2 - used && used <= maxSize by {
      ComposedControls(st, maxSize);
    }
    DataFits(st.framer, order, used, maxSize, negotiated, space, data);
  }

  lemma {:induction false} FillsWritten(wire: Order, store: F.Store, payload: Payload, maxSize: nat, grows: bool)
    requires Fills(store, payload, maxSize, grows) && LengthsExact(payload.controls)
    requires ControlBytes(wire, payload.controls).Some? && DataBytes(wire, F.Frames(store, payload.ids)).Some?
    ensures var bytes :=
        ControlBytes(wire, payload.controls).value + DataBytes(wire, F.Frames(store, payload.ids)).value;
      |bytes| <= maxSize <==> !grows
  {
    ControlLength(wire, payload.controls);
    DataLength(wire, F.Frames(store, payload.ids));
  }

  /**
    A payload does not exceed the size it was composed for once it is written, whatever is queued and split, if
    and only if it does not cut a frame at offset zero by one byte that it holds already.
   */
  lemma {:induction false} PayloadFits(
    wire: Order, st: State, maxSize: nat, canSendData: bool, order: seq<nat>, negotiated: FC.Negotiated,
    data: (F.State, seq<nat>), st': State, payload: Payload)
    requires Valid(st) && data == DataFor(st, maxSize, order, negotiated)
    requires Compose(st, maxSize, canSendData, data) == Ok((st', payload))
    ensures AllProper(payload.controls) && F.Refers(payload.ids, |st'.framer.store|)
    ensures var controls, bytes :=
        ControlBytes(wire, payload.controls), DataBytes(wire, F.Frames(st'.framer.store, payload.ids));
      LengthsExact(payload.controls) && controls.Some? && bytes.Some? ==>
        (|controls.value + bytes.value| <= maxSize <==> !(canSendData && Grows(st, maxSize)))
  {
    var used, space := ComposeControls(st, maxSize).value.used, DataSpace(st, maxSize);
    ComposedData(st, maxSize, order, negotiated, used, space, data);
    ComposedFits(st, maxSize, canSendData, data, Grows(st, maxSize));
    var fs := F.Frames(st'.framer.store, payload.ids);
    if LengthsExact(payload.controls) && ControlBytes(wire, payload.controls).Some? && DataBytes(wire, fs).Some? {
      FillsWritten(wire, st'.framer.store, payload, maxSize, canSendData && Grows(st, maxSize));
    }
  }

  /** Header, payload and seal together must not exceed the packet size. */
  function WritePacket(
    wire: Order, headerLength: nat, overhead: nat, controls: seq<Control>, fs: seq<StreamFrame>)
    : Result<seq<byte>, Error>
    requires AllProper(controls)
  {
    var first, data := ControlBytes(wire, controls), DataBytes(wire, fs);
    if first.None? || data.None? then Err(FrameNotWritable)
    else if headerLength + |first.value + data.value| + overhead > MAX_PACKET_SIZE then Err(PacketTooLarge)
    else Ok(first.value + data.value)
  }

  /** Hence a packet composed for the space left by header and seal is found to be too large in that one case only. */
  lemma {:induction false} TooLargeExactly(
    wire: Order, st: State, headerLength: nat, overhead: nat, canSendData: bool, order: seq<nat>,
    negotiated: FC.Negotiated, data: (F.State, seq<nat>), st': State, payload: Payload)
    requires Valid(st) && headerLength + overhead <= MAX_PACKET_SIZE
    requires data == DataFor(st, MAX_PACKET_SIZE - overhead - headerLength, order, negotiated)
    requires Compose(st, MAX_PACKET_SIZE - overhead - headerLength, canSendData, data) == Ok((st', payload))
    ensures AllProper(payload.controls) && F.Refers(payload.ids, |st'.framer.store|)
    ensures var fs := F.Frames(st'.framer.store, payload.ids);
      var r := WritePacket(wire, headerLength, overhead, payload.controls, fs);
      LengthsExact(payload.controls) && r != Err(FrameNotWritable) ==>
        (r == Err(PacketTooLarge) <==> canSendData && Grows(st, MAX_PACKET_SIZE - overhead - headerLength))
  {
    var maxSize := MAX_PACKET_SIZE - overhead - headerLength;
    PayloadFits(wire, st, maxSize, canSendData, order, negotiated, data, st', payload);
    assert AllProper(payload.controls);
    PacketFits(wire, headerLength, overhead, payload.controls, F.Frames(st'.framer.store, payload.ids));
  }

  lemma {:induction false} PacketFits(
    wire: Order, headerLength: nat, overhead: nat, controls: seq<Control>, fs: seq<StreamFrame>)
    requires AllProper(controls)
    ensures var first, data, r :=
        ControlBytes(wire, controls), DataBytes(wire, fs), WritePacket(wire, headerLength, overhead, controls, fs);
      && (r == Err(FrameNotWritable) <==> first.None? || data.None?)
      && (r != Err(FrameNotWritable) ==>
            (r == Err(PacketTooLarge) <==> |first.value + data.value| > MAX_PACKET_SIZE - overhead - headerLength))
  {
  }

  /** If every frame is queued only once, no packet is too large. */
  lemma {:induction false} NeverTooLarge(st: State, maxSize: nat, order: seq<nat>, negotiated: FC.Negotiated)
    requires Valid(st) && ComposeControls(st, maxSize).Ok? && NoDuplicates(st.framer.queue)
    ensures !Grows(st, maxSize)
  {
    F.PopDistinct(st.framer, order, DataSpace(st, maxSize), negotiated);
  }

  // ----- The packer as an object -----

  method PopControlFrames(controls: seq<Control>, used: nat, maxSize: nat) returns (r: Result<Controls, Error>)
    requires AllProper(controls)
    ensures r == TakeControls(controls, used, maxSize)
  {
    var taken: seq<Control> := [];
    var left := controls;
    var now: nat := used;
    ghost var all := TakeControls(controls, used, maxSize);
    while left != []
      invariant AllProper(left)
      invariant Continues(all, taken, TakeControls(left, now, maxSize))
      decreases |left|
    {
      var c := left[|left| - 1];
      var n := MinLength(c);
      if n.None? {
        return Err(NoLength);
      }
      if now + n.value > maxSize {
        assert taken + [] == taken;
        return Ok(Controls(taken, left, now));
      }
      ghost var more := TakeControls(left[..|left| - 1], now + n.value, maxSize);
      if more.Ok? {
        Associate(taken, [c], more.value.taken);
      }
      taken, left, now := taken + [c], left[..|left| - 1], now + n.value;
    }
    assert taken + [] == taken;
    r := Ok(Controls(taken, left, now));
  }

  /** The whole result is what was taken so far, continued by the rest. */
  ghost predicate Continues(all: Result<Controls, Error>, taken: seq<Control>, rest: Result<Controls, Error>) {
    if rest.Err? then all == rest
    else all.Ok? && all.value == rest.value.(taken := taken + rest.value.taken)
  }

  class Packer {
    const framer: F.Framer
    var stopWaiting: Option<Control>
    var ackFrame: Option<Control>
    var controlFrames: seq<Control>

    ghost function Contents(): State
      reads this, framer
    {
      State(stopWaiting, ackFrame, controlFrames, framer.Contents())
    }

    constructor (framer: F.Framer)
      ensures this.framer == framer && stopWaiting == None && ackFrame == None && controlFrames == []
    {
      this.framer := framer;
      stopWaiting, ackFrame, controlFrames := None, None, [];
    }

    method QueueControlFrame(c: Control)
      modifies this
      ensures Contents() == match c
        case StopWaiting(_, _, _) => old(Contents()).(stopWaiting := Some(c))
        case Ack(_, _) => old(Contents()).(ack := Some(c))
        case _ => old(Contents()).(controls := old(controlFrames) + [c])
    {
      if c.StopWaiting? {
        stopWaiting := Some(c);
      } else if c.Ack? {
        ackFrame := Some(c);
      } else {
        controlFrames := controlFrames + [c];
      }
    }

    method MoveBlockedFrames()
      modifies this, framer
      ensures framer.Contents() == old(framer.Contents()).(blocked := [])
      ensures controlFrames == old(controlFrames) + BlockedFrames(old(framer.blockedFrameQueue))
      ensures stopWaiting == old(stopWaiting) && ackFrame == old(ackFrame)
    {
      ghost var queue := framer.blockedFrameQueue;
      var b := framer.PopBlockedFrame();
      while b.Some?
        invariant framer.Contents() == old(framer.Contents()).(blocked := framer.blockedFrameQueue)
        invariant b.None? ==> framer.blockedFrameQueue == []
        invariant controlFrames + (if b.Some? then [Blocked(b.value)] else []) + BlockedFrames(framer.blockedFrameQueue)
          == old(controlFrames) + BlockedFrames(queue)
        invariant stopWaiting == old(stopWaiting) && ackFrame == old(ackFrame)
        decreases b.Some?, |framer.blockedFrameQueue|
      {
        controlFrames := controlFrames + [Blocked(b.value)];
        b := framer.PopBlockedFrame();
      }
    }

    method ComposeStreamFrames(order: seq<nat>, space: nat, negotiated: FC.Negotiated) returns (ids: seq<nat>)
      requires F.Refers(framer.retransmissionQueue, |framer.store|)
      modifies framer
      ensures (framer.Contents(), ids) == ComposeData(old(framer.Contents()), order, space, negotiated)
    {
      F.PoppedFrames(framer.Contents(), order, space, negotiated);
      ids := framer.PopFrames(order, space, negotiated);
      framer.ClearLength(ids);
    }

    method ComposeControlFrames(maxSize: nat) returns (r: Result<Controls, Error>)
      requires Valid(Contents())
      modifies this`controlFrames
      ensures r == ComposeControls(old(Contents()), maxSize)
      ensures r.Ok? ==> controlFrames == r.value.left && r.value.used <= maxSize
    {
      var first :- AlwaysFirst();
      var taken :- PopControlFrames(controlFrames, first.1, maxSize);
      controlFrames := taken.left;
      if taken.used > maxSize {
        return Err(PayloadTooLarge);
      }
      r := Ok(taken.(taken := first.0 + taken.taken));
    }

    /** `data` names what the framer composes. */
    method AddStreamFrames(
      ghost st: State, order: seq<nat>, space: nat, negotiated: FC.Negotiated, ghost data: (F.State, seq<nat>))
      returns (ids: seq<nat>)
      requires st == Contents() && F.Refers(st.framer.queue, |st.framer.store|)
      requires data == ComposeData(st.framer, order, space, negotiated)
      modifies this, framer
      ensures ids == data.1 && Contents() == AddData(st, data.0)
    {
      ids := ComposeStreamFrames(order, space, negotiated);
      MoveBlockedFrames();
    }

    method FinishPacket(
      ghost left: State, c: Controls, canSendData: bool, order: seq<nat>, space: nat, negotiated: FC.Negotiated,
      ghost data: (F.State, seq<nat>))
      returns (payload: Payload)
      requires left == Contents() && F.Refers(left.framer.queue, |left.framer.store|)
      requires data == ComposeData(left.framer, order, space, negotiated)
      modifies this, framer
      ensures (Contents(), payload) == ComposeRest(left, c, canSendData, data)
    {
      if !canSendData {
        return Payload(c.taken, []);
      }
      var ids := AddStreamFrames(left, order, space, negotiated, data);
      payload := Payload(c.taken, ids);
    }

    method ComposeNextPacket(
      maxSize: nat, canSendData: bool, order: seq<nat>, negotiated: FC.Negotiated, ghost data: (F.State, seq<nat>))
      returns (r: Result<Payload, Error>)
      requires Valid(Contents()) && data == DataFor(Contents(), maxSize, order, negotiated)
      modifies this, framer
      ensures match Compose(old(Contents()), maxSize, canSendData, data)
        case Ok(composed) => r == Ok(composed.1) && Contents() == composed.0
        case Err(e) => r == Err(e)
    {
      ghost var st := Contents();
      var c :- ComposeControlFrames(maxSize);
      assert DataSpace(st, maxSize) == maxSize + 2 - c.used;
      var payload := FinishPacket(
        st.(controls := c.left), c, canSendData, order, maxSize + 2 - c.used, negotiated, data);
      r := Ok(payload);
    }

    method AlwaysFirst() returns (r: Result<(seq<Control>, nat), Error>)
      requires Valid(Contents())
      ensures r == TakeFirst(Contents())
    {
      var frames: seq<Control> := [];
      var used: nat := 0;
      if stopWaiting.Some? {
        var n := MinLength(stopWaiting.value);
        if n.None? {
          return Err(NoLength);
        }
        frames, used := [stopWaiting.value], n.value;
      }
      if ackFrame.Some? {
        var n := MinLength(ackFrame.value);
        if n.None? {
          return Err(NoLength);
        }
        frames, used := frames + [ackFrame.value], used + n.value;
      }
      assert frames == (if stopWaiting.None? then [] else [stopWaiting.value])
        + (if ackFrame.None? then [] else [ackFrame.value]);
      r := Ok((frames, used));
    }
  }

  /** BLOCKED frames go into the next packet. */
  function BlockedFrames(ids: seq<nat>): seq<Control> {
    if ids == [] then [] else [Blocked(ids[0])] + BlockedFrames(ids[1..])
  }
}
