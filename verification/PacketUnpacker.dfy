/**
  Reading the STREAM frames of a packet back (quic-go/packet_unpacker.go), and what becomes of the frames that
  the packer composed.
 */
module PacketUnpacker {
  import opened Basics
  import opened ByteOrder
  import opened StreamFrames
  import Codec = StreamFrameCodec
  import FC = FlowControlManager
  import F = StreamFramer
  import P = PacketPacker

  datatype Error = MissingPayload | InvalidStreamData | UnencryptedStreamData | NotAStreamFrame

  /** One frame, or a byte of padding. */
  function Next(order: Order, s: seq<byte>, encrypted: bool): Result<(seq<StreamFrame>, seq<byte>), Error>
    requires s != []
  {
    if s[0] == 0 then Ok(([], s[1..]))
    else if s[0] < 0x80 then Err(NotAStreamFrame)
    else
      match Codec.Parse(order, s)
      case Err(_) => Err(InvalidStreamData)
      case Ok((f, rest)) =>
        if f.streamID != 1 && !encrypted then Err(UnencryptedStreamData) else Ok(([f], rest))
  }

  lemma {:induction false} DataWithin(order: Order, s: seq<byte>, dataLenPresent: bool)
    requires Codec.GetData(order, s, dataLenPresent).Ok?
    ensures |Codec.GetData(order, s, dataLenPresent).value.1| <= |s|
    ensures !dataLenPresent && |s| <= 0xFFFF ==> Codec.GetData(order, s, dataLenPresent).value.1 == []
  {
  }

  /** A frame is not empty, and a frame without a length field takes the rest. */
  lemma {:induction false} ParseConsumes(order: Order, s: seq<byte>)
    requires Codec.Parse(order, s).Ok?
    ensures |Codec.Parse(order, s).value.1| < |s|
    ensures !Codec.FlagsOf(s[0]).dataLenPresent && |s| <= 0xFFFF ==> Codec.Parse(order, s).value.1 == []
  {
    var flags := Codec.FlagsOf(s[0]);
    var s2 := GetInt(order, s[1..], flags.streamIDLength, Codec.EndOfInput).value.1;
    var s3 := GetInt(order, s2, flags.offsetLength, Codec.EndOfInput).value.1;
    DataWithin(order, s3, flags.dataLenPresent);
  }

  lemma {:induction false} NextConsumes(order: Order, s: seq<byte>, encrypted: bool)
    requires s != [] && Next(order, s, encrypted).Ok?
    ensures |Next(order, s, encrypted).value.1| < |s|
  {
    if s[0] != 0 {
      ParseConsumes(order, s);
    }
  }

  function UnpackFrames(order: Order, s: seq<byte>, encrypted: bool): Result<seq<StreamFrame>, Error>
    decreases |s|
  {
    if s == [] then Ok([])
    else
      match Next(order, s, encrypted)
      case Err(e) => Err(e)
      case Ok((fs, rest)) =>
        NextConsumes(order, s, encrypted);
        match UnpackFrames(order, rest, encrypted)
        case Err(e) => Err(e)
        case Ok(more) => Ok(fs + more)
  }

  lemma {:induction false} UnpackStep(
    order: Order, s: seq<byte>, encrypted: bool, fs: seq<StreamFrame>, rest: seq<byte>)
    requires s != [] && Next(order, s, encrypted) == Ok((fs, rest))
    ensures UnpackFrames(order, s, encrypted) == match UnpackFrames(order, rest, encrypted)
      case Err(e) => Err(e)
      case Ok(more) => Ok(fs + more)
  {
    NextConsumes(order, s, encrypted);
  }

  method Unpack(order: Order, data: seq<byte>, encrypted: bool) returns (r: Result<seq<StreamFrame>, Error>)
    ensures r == if data == [] then Err(MissingPayload) else UnpackFrames(order, data, encrypted)
  {
    if data == [] {
      return Err(MissingPayload);
    }
    var fs: seq<StreamFrame> := [];
    var left := data;
    ghost var all := UnpackFrames(order, data, encrypted);
    if all.Ok? {
      assert fs + all.value == all.value;
    }
    while left != []
      invariant match UnpackFrames(order, left, encrypted)
        case Err(e) => UnpackFrames(order, data, encrypted) == Err(e)
        case Ok(more) => UnpackFrames(order, data, encrypted) == Ok(fs + more)
      decreases |left|
    {
      var next :- Next(order, left, encrypted);
      NextConsumes(order, left, encrypted);
      ghost var rest := UnpackFrames(order, next.1, encrypted);
      if rest.Ok? {
        Associate(fs, next.0, rest.value);
      }
      fs, left := fs + next.0, next.1;
    }
    assert fs + [] == fs;
    return Ok(fs);
  }

  // ----- Reading back what was written -----

  /** Frames that the receiver accepts. */
  predicate Acceptable(fs: seq<StreamFrame>, encrypted: bool) {
    fs == [] ||
    (Codec.Encodable(fs[0]) && (encrypted || fs[0].streamID == 1) && Acceptable(fs[1..], encrypted))
  }

  /** Every frame but the last says where it ends. */
  predicate Separated(fs: seq<StreamFrame>) {
    |fs| <= 1 || (fs[0].dataLenPresent && Separated(fs[1..]))
  }

  lemma {:induction false} Written(order: Order, fs: seq<StreamFrame>, encrypted: bool)
    requires Acceptable(fs, encrypted)
    ensures P.DataBytes(order, fs).Some?
  {
    if fs != [] {
      Written(order, fs[1..], encrypted);
    }
  }

  lemma {:induction false} NextWritten(order: Order, f: StreamFrame, rest: seq<byte>, encrypted: bool)
    requires Codec.Encodable(f) && (encrypted || f.streamID == 1) && (f.dataLenPresent || rest == [])
    ensures Codec.Write(order, f).Some? && Next(order, Codec.Write(order, f).value + rest, encrypted) == Ok(([f], rest))
  {
    Codec.WriteParse(order, f, rest);
    assert (Codec.Write(order, f).value + rest)[0] == Codec.TypeByte(f);
  }

  lemma {:induction false} UnpackFirst(
    order: Order, f: StreamFrame, rest: seq<byte>, fs: seq<StreamFrame>, encrypted: bool)
    requires Codec.Encodable(f) && (encrypted || f.streamID == 1) && (f.dataLenPresent || rest == [])
    requires UnpackFrames(order, rest, encrypted) == Ok(fs)
    ensures Codec.Write(order, f).Some?
    ensures UnpackFrames(order, Codec.Write(order, f).value + rest, encrypted) == Ok([f] + fs)
  {
    NextWritten(order, f, rest, encrypted);
    UnpackStep(order, Codec.Write(order, f).value + rest, encrypted, [f], rest);
  }

  lemma {:induction false} UnpackCons(order: Order, f: StreamFrame, fs: seq<StreamFrame>, encrypted: bool)
    requires Codec.Encodable(f) && (encrypted || f.streamID == 1) && (f.dataLenPresent || fs == [])
    requires P.DataBytes(order, fs).Some? && UnpackFrames(order, P.DataBytes(order, fs).value, encrypted) == Ok(fs)
    ensures P.DataBytes(order, [f] + fs).Some?
    ensures UnpackFrames(order, P.DataBytes(order, [f] + fs).value, encrypted) == Ok([f] + fs)
  {
    var rest := P.DataBytes(order, fs).value;
    UnpackFirst(order, f, rest, fs, encrypted);
    assert ([f] + fs)[1..] == fs;
    assert P.DataBytes(order, [f] + fs) == Some(Codec.Write(order, f).value + rest);
  }

  lemma {:induction false} FirstAndRest(fs: seq<StreamFrame>, encrypted: bool)
    requires Acceptable(fs, encrypted) && Separated(fs) && fs != []
    ensures Codec.Encodable(fs[0]) && (encrypted || fs[0].streamID == 1) && (fs[0].dataLenPresent || fs[1..] == [])
    ensures Acceptable(fs[1..], encrypted) && Separated(fs[1..])
  {
  }

  /** Frames that are separated are read back. */
  lemma {:induction false} UnpackWritten(order: Order, fs: seq<StreamFrame>, encrypted: bool)
    requires Acceptable(fs, encrypted) && Separated(fs)
    ensures P.DataBytes(order, fs).Some? && UnpackFrames(order, P.DataBytes(order, fs).value, encrypted) == Ok(fs)
  {
    if fs != [] {
      FirstAndRest(fs, encrypted);
      UnpackWritten(order, fs[1..], encrypted);
      UnpackCons(order, fs[0], fs[1..], encrypted);
      assert [fs[0]] + fs[1..] == fs;
    }
  }

  /** A frame without a length field swallows what follows. */
  lemma {:induction false} NextSwallows(order: Order, f: StreamFrame, rest: seq<byte>, encrypted: bool)
    requires Codec.Write(order, f).Some? && !f.dataLenPresent && |Codec.Write(order, f).value + rest| <= 0xFFFF
    ensures var r := UnpackFrames(order, Codec.Write(order, f).value + rest, encrypted); r.Ok? ==> |r.value| == 1
  {
    var s := Codec.Write(order, f).value + rest;
    assert s[0] == Codec.TypeByte(f);
    Codec.TypeBits(f);
    if Codec.Parse(order, s).Ok? {
      ParseConsumes(order, s);
    }
  }

  /** What follows a frame without a length field is read as its data. */
  lemma {:induction false} SwallowsRest(order: Order, f: StreamFrame, rest: seq<byte>)
    requires !f.dataLenPresent && Codec.Encodable(f) && Codec.Encodable(f.(data := f.data + rest))
    ensures Codec.Write(order, f).Some?
    ensures UnpackFrames(order, Codec.Write(order, f).value + rest, true) == Ok([f.(data := f.data + rest)])
  {
    var merged := f.(data := f.data + rest);
    assert Codec.Write(order, f).value + rest == Codec.Write(order, merged).value + [] by {
      Associate([Codec.TypeByte(f)], Codec.PutFields(order, f), rest);
      MergedFields(order, f, rest);
    }
    NextWritten(order, merged, [], true);
    UnpackStep(order, Codec.Write(order, f).value + rest, true, [merged], []);
    assert [merged] + [] == [merged];
  }

  lemma {:induction false} MergedFields(order: Order, f: StreamFrame, rest: seq<byte>)
    requires !f.dataLenPresent
    ensures Codec.PutFields(order, f.(data := f.data + rest)) == Codec.PutFields(order, f) + rest
  {
    var id := Put(order, f.streamID, Codec.StreamIDLength(f.streamID));
    var offset := Put(order, f.offset, Codec.OffsetLength(f.offset));
    assert [] + f.data == f.data && [] + (f.data + rest) == f.data + rest;
    Associate(offset, f.data, rest);
    Associate(id, offset + f.data, rest);
  }

  /** Frames that are not separated come out fewer, or not at all. */
  lemma {:induction false} UnpackFewer(order: Order, fs: seq<StreamFrame>, encrypted: bool)
    requires Acceptable(fs, encrypted) && !Separated(fs) && F.TotalLength(fs) <= 0xFFFF
    ensures P.DataBytes(order, fs).Some?
    ensures var r := UnpackFrames(order, P.DataBytes(order, fs).value, encrypted); r.Ok? ==> |r.value| < |fs|
  {
    Written(order, fs, encrypted);
    P.DataLength(order, fs);
    var rest := P.DataBytes(order, fs[1..]).value;
    if fs[0].dataLenPresent {
      UnpackFewer(order, fs[1..], encrypted);
      NextWritten(order, fs[0], rest, encrypted);
    } else {
      NextSwallows(order, fs[0], rest, encrypted);
    }
  }

  lemma {:induction false} ReadBackExactly(order: Order, fs: seq<StreamFrame>, encrypted: bool)
    requires Acceptable(fs, encrypted) && F.TotalLength(fs) <= 0xFFFF
    ensures P.DataBytes(order, fs).Some?
    ensures UnpackFrames(order, P.DataBytes(order, fs).value, encrypted) == Ok(fs) <==> Separated(fs)
  {
    if Separated(fs) {
      UnpackWritten(order, fs, encrypted);
    } else {
      UnpackFewer(order, fs, encrypted);
    }
  }

  // ----- Frames that the packer composed -----

  /** Clearing the length field of one object separates the frames, unless the object also stands further ahead. */
  lemma {:induction false} SeparatedExactly(store: F.Store, ids: seq<nat>, x: nat, v: StreamFrame)
    requires F.Refers(ids, |store|) && ids != [] && x == P.Last(ids) && x < |store| && !v.dataLenPresent
    requires F.Delimited(F.Frames(store, ids))
    ensures Separated(F.Frames(store[x := v], ids)) <==> !P.SharesLast(ids)
  {
    if |ids| > 1 {
      var fs := F.Frames(store[x := v], ids);
      assert F.Delimited(F.Frames(store, ids[1..])) && store[ids[0]].dataLenPresent by {
        assert F.Frames(store, ids)[1..] == F.Frames(store, ids[1..]);
      }
      SeparatedExactly(store, ids[1..], x, v);
      SharesLastCons(ids);
      assert fs[1..] == F.Frames(store[x := v], ids[1..]) && fs[0] == store[x := v][ids[0]];
    }
  }

  lemma {:induction false} SharesLastCons(ids: seq<nat>)
    requires |ids| > 1
    ensures P.SharesLast(ids) <==> ids[0] == P.Last(ids) || P.SharesLast(ids[1..])
  {
    assert ids[..|ids| - 1] == [ids[0]] + ids[1..][..|ids| - 2];
  }

  /**
    The bytes of the frames, the last one without its length field, are read back as exactly these frames, if and
    only if no earlier entry of the packet is the same object as the last one.
   */
  lemma {:induction false} ClearedReadBack(order: Order, store: F.Store, ids: seq<nat>, encrypted: bool)
    requires F.Refers(ids, |store|) && F.Delimited(F.Frames(store, ids))
    requires F.TotalLength(F.Frames(store, ids)) <= 0xFFFF
    requires Acceptable(F.Frames(P.ClearLast(store, ids), ids), encrypted)
    ensures var fs := F.Frames(P.ClearLast(store, ids), ids);
      && P.DataBytes(order, fs).Some?
      && (UnpackFrames(order, P.DataBytes(order, fs).value, encrypted) == Ok(fs) <==> !P.SharesLast(ids))
  {
    var cleared := P.ClearLast(store, ids);
    if ids != [] {
      var x := P.Last(ids);
      P.LastRefers(ids, |store|);
      SeparatedExactly(store, ids, x, cleared[x]);
      P.ClearSavesTwo(store, ids);
    }
    ReadBackExactly(order, F.Frames(cleared, ids), encrypted);
  }

  /** What the wire format asks of a frame, apart from its length. */
  predicate Sendable(f: StreamFrame) {
    f.streamID < 0x1_0000_0000 && f.End() <= MAX_U64 && (f.fin || f.data != [])
  }

  predicate AllSendable(fs: seq<StreamFrame>) {
    fs == [] || (Sendable(fs[0]) && AllSendable(fs[1..]))
  }

  lemma {:induction false} SmallAcceptable(fs: seq<StreamFrame>, space: nat)
    requires AllSendable(fs) && F.Small(fs, space) && space <= MAX_PACKET_SIZE + 2
    ensures Acceptable(fs, true)
  {
    if fs != [] {
      SmallAcceptable(fs[1..], space);
    }
  }

  lemma {:induction false} ClearedSmall(store: F.Store, ids: seq<nat>, space: nat)
    requires F.Refers(ids, |store|) && F.Small(F.Frames(store, ids), space)
    ensures F.Small(F.Frames(P.ClearLast(store, ids), ids), space)
  {
    if ids != [] {
      P.LastRefers(ids, |store|);
      F.SmallUpdate(store, ids, P.Last(ids), P.ClearLast(store, ids)[P.Last(ids)], space);
    }
  }

  lemma {:induction false} PoppedReadBack(wire: Order, store: F.Store, ids: seq<nat>, space: nat)
    requires F.Refers(ids, |store|) && space <= MAX_PACKET_SIZE + 2
    requires F.Delimited(F.Frames(store, ids)) && F.Small(F.Frames(store, ids), space)
    requires F.TotalLength(F.Frames(store, ids)) <= 3 * space
    ensures var fs := F.Frames(P.ClearLast(store, ids), ids);
      AllSendable(fs) ==>
        && P.DataBytes(wire, fs).Some?
        && (UnpackFrames(wire, P.DataBytes(wire, fs).value, true) == Ok(fs) <==> !P.SharesLast(ids))
  {
    if AllSendable(F.Frames(P.ClearLast(store, ids), ids)) {
      ClearedSmall(store, ids, space);
      SmallAcceptable(F.Frames(P.ClearLast(store, ids), ids), space);
      ClearedReadBack(wire, store, ids, true);
    }
  }

  /**
    Whatever is queued, split and made anew for a packet: the receiver reads exactly the frames composed, if and
    only if the packet does not hold its last frame twice.
   */
  lemma {:induction false} ComposedReadBack(
    wire: Order, framer: F.State, order: seq<nat>, space: nat, negotiated: FC.Negotiated)
    requires F.Refers(framer.queue, |framer.store|) && space <= MAX_PACKET_SIZE + 2
    ensures var r := P.ComposeData(framer, order, space, negotiated);
      var fs := F.Frames(r.0.store, r.1);
      AllSendable(fs) ==>
        && P.DataBytes(wire, fs).Some?
        && (UnpackFrames(wire, P.DataBytes(wire, fs).value, true) == Ok(fs) <==> !P.SharesLast(r.1))
  {
    var (popped, ids) := F.PopStreamFrames(framer, order, space, negotiated);
    F.PopFits(framer, order, space, negotiated);
    PoppedReadBack(wire, popped.store, ids, space);
  }
}
