/** STREAM frames on the wire (quic-go/internal/wire/stream_frame.go). */
module StreamFrameCodec {
  import opened Basics
  import opened ByteOrder
  import opened StreamFrames

  function StreamIDLength(id: nat): (n: nat)
    ensures 1 <= n <= 4
  {
    if id < 0x100 then 1 else if id < 0x1_0000 then 2 else if id < 0x100_0000 then 3 else 4
  }

  function OffsetLength(offset: nat): (n: nat)
    ensures n <= 8 && n != 1
  {
    if offset == 0 then 0
    else if offset < 0x1_0000 then 2
    else if offset < 0x100_0000 then 3
    else if offset < 0x1_0000_0000 then 4
    else if offset < 0x100_0000_0000 then 5
    else if offset < 0x1_0000_0000_0000 then 6
    else if offset < 0x100_0000_0000_0000 then 7
    else 8
  }

  /** The length of the header; the data follow it. */
  function MinLength(f: StreamFrame): nat {
    1 + StreamIDLength(f.streamID) + OffsetLength(f.offset) + if f.dataLenPresent then 2 else 0
  }

  // ----- Writing -----

  function TypeByte(f: StreamFrame): byte {
    var offsetBits := if OffsetLength(f.offset) > 0 then OffsetLength(f.offset) - 1 else 0;
    0x80 + (if f.fin then 0x40 else 0) + (if f.dataLenPresent then 0x20 else 0)
      + 4 * offsetBits + (StreamIDLength(f.streamID) - 1)
  }

  function PutData(order: Order, f: StreamFrame): seq<byte> {
    (if f.dataLenPresent then Put(order, |f.data|, 2) else []) + f.data
  }

  function Write(order: Order, f: StreamFrame): Option<seq<byte>> {
    if f.data == [] && !f.fin then None
    else Some([TypeByte(f)] + PutFields(order, f))
  }

  function PutFields(order: Order, f: StreamFrame): seq<byte> {
    Put(order, f.streamID, StreamIDLength(f.streamID))
    + (Put(order, f.offset, OffsetLength(f.offset)) + PutData(order, f))
  }

  // ----- Parsing -----

  datatype ParseError = EndOfInput | DataTooLong | DataOverflowsOffset | EmptyStreamFrameNoFin

  /** The data: as many bytes as the length field says, or else the rest of the packet. */
  function GetData(order: Order, s: seq<byte>, dataLenPresent: bool): Result<(seq<byte>, seq<byte>), ParseError> {
    var (dataLen, s1) :- if dataLenPresent then GetInt(order, s, 2, EndOfInput) else Ok((0, s));
    if dataLen > MAX_PACKET_SIZE then Err(DataTooLong)
    else
      var n := if dataLenPresent then dataLen else |s1| % 0x1_0000;
      if n > |s1| then Err(EndOfInput) else Ok((s1[..n], s1[n..]))
  }

  /** What the type byte says about the fields that follow. */
  datatype Flags = Flags(fin: bool, dataLenPresent: bool, offsetLength: nat, streamIDLength: nat)

  function FlagsOf(t: byte): Flags {
    var offsetBits := (t / 4) % 8;
    Flags((t / 0x40) % 2 == 1, (t / 0x20) % 2 == 1, if offsetBits == 0 then 0 else offsetBits + 1, t % 4 + 1)
  }

  function ParseFields(order: Order, flags: Flags, s: seq<byte>): Result<(StreamFrame, seq<byte>), ParseError> {
    var (streamID, s2) :- GetInt(order, s, flags.streamIDLength, EndOfInput);
    var (offset, s3) :- GetInt(order, s2, flags.offsetLength, EndOfInput);
    var (data, rest) :- GetData(order, s3, flags.dataLenPresent);
    if offset + |data| > MAX_U64 then Err(DataOverflowsOffset)
    else if !flags.fin && data == [] then Err(EmptyStreamFrameNoFin)
    else Ok((StreamFrame(streamID, flags.fin, flags.dataLenPresent, offset, data), rest))
  }

  function Parse(order: Order, s: seq<byte>): Result<(StreamFrame, seq<byte>), ParseError> {
    if s == [] then Err(EndOfInput) else ParseFields(order, FlagsOf(s[0]), s[1..])
  }

  // ----- Lengths and round trip -----

  /** The bytes written are the header and the data. */
  lemma {:induction false} LengthWritten(order: Order, f: StreamFrame)
    requires Write(order, f).Some?
    ensures |Write(order, f).value| == MinLength(f) + |f.data|
  {
  }

  lemma {:induction false} Powers()
    ensures Pow256(1) == 0x100 && Pow256(2) == 0x1_0000 && Pow256(3) == 0x100_0000 && Pow256(4) == 0x1_0000_0000
    ensures Pow256(5) == 0x100_0000_0000 && Pow256(6) == 0x1_0000_0000_0000
    ensures Pow256(7) == 0x100_0000_0000_0000 && Pow256(8) == TWO_64
  {
    assert Pow256(1) == 0x100;
    assert Pow256(2) == 256 * Pow256(1);
    assert Pow256(3) == 256 * Pow256(2);
    assert Pow256(4) == 256 * Pow256(3);
    assert Pow256(5) == 256 * Pow256(4);
    assert Pow256(6) == 256 * Pow256(5);
    assert Pow256(7) == 256 * Pow256(6);
    assert Pow256(8) == 256 * Pow256(7);
  }

  function FlagsFor(f: StreamFrame): Flags {
    Flags(f.fin, f.dataLenPresent, OffsetLength(f.offset), StreamIDLength(f.streamID))
  }

  lemma {:induction false} Digits(fin: nat, dataLen: nat, offsetBits: nat, idBits: nat)
    requires fin < 2 && dataLen < 2 && offsetBits < 8 && idBits < 4
    ensures var t := 0x80 + 0x40 * fin + 0x20 * dataLen + 4 * offsetBits + idBits;
      (t / 0x40) % 2 == fin && (t / 0x20) % 2 == dataLen && (t / 4) % 8 == offsetBits && t % 4 == idBits
  {
    var t := 0x80 + 0x40 * fin + 0x20 * dataLen + 4 * offsetBits + idBits;
    assert t / 0x40 == 2 + fin;
    assert t / 0x20 == 4 + 2 * fin + dataLen;
    assert t / 4 == 8 * (4 + 2 * fin + dataLen) + offsetBits;
    assert t % 4 == idBits;
  }

  lemma {:induction false} TypeBits(f: StreamFrame)
    ensures FlagsOf(TypeByte(f)) == FlagsFor(f)
  {
    var n := OffsetLength(f.offset);
    Digits(if f.fin then 1 else 0, if f.dataLenPresent then 1 else 0, if n > 0 then n - 1 else 0,
      StreamIDLength(f.streamID) - 1);
  }

  /** Frames that the parser accepts again: a length field must hold, and may not exceed a packet. */
  predicate Encodable(f: StreamFrame) {
    && f.streamID < 0x1_0000_0000
    && f.End() <= MAX_U64
    && (f.fin || f.data != [])
    && |f.data| <= if f.dataLenPresent then MAX_PACKET_SIZE else 0xFFFF
  }

  lemma {:induction false} GetPutData(order: Order, f: StreamFrame, rest: seq<byte>)
    requires Encodable(f) && (f.dataLenPresent || rest == [])
    ensures GetData(order, PutData(order, f) + rest, f.dataLenPresent) == Ok((f.data, rest))
  {
    var tail := f.data + rest;
    assert tail[..|f.data|] == f.data && tail[|f.data|..] == rest;
    if f.dataLenPresent {
      Powers();
      GetPut(order, |f.data|, 2, tail);
      Associate(Put(order, |f.data|, 2), f.data, rest);
    } else {
      assert PutData(order, f) + rest == tail;
    }
  }

  lemma {:induction false} ParseFieldsAs(
    order: Order, f: StreamFrame, s: seq<byte>, s2: seq<byte>, s3: seq<byte>, rest: seq<byte>)
    requires Encodable(f)
    requires GetInt(order, s, StreamIDLength(f.streamID), EndOfInput) == Ok((f.streamID, s2))
    requires GetInt(order, s2, OffsetLength(f.offset), EndOfInput) == Ok((f.offset, s3))
    requires GetData(order, s3, f.dataLenPresent) == Ok((f.data, rest))
    ensures ParseFields(order, FlagsFor(f), s) == Ok((f, rest))
  {
  }

  lemma {:induction false} ParsePutFields(order: Order, f: StreamFrame, rest: seq<byte>)
    requires Encodable(f) && (f.dataLenPresent || rest == [])
    ensures ParseFields(order, FlagsFor(f), PutFields(order, f) + rest) == Ok((f, rest))
  {
    var idLen, offsetLen := StreamIDLength(f.streamID), OffsetLength(f.offset);
    var id, offset, data := Put(order, f.streamID, idLen), Put(order, f.offset, offsetLen), PutData(order, f);
    var s3 := data + rest;
    var s2 := offset + s3;
    assert f.streamID < Pow256(idLen) && f.offset < Pow256(offsetLen) by {
      Powers();
    }
    assert PutFields(order, f) + rest == id + s2 by {
      Associate(id, offset + data, rest);
      Associate(offset, data, rest);
    }
    GetPutInt(order, f.streamID, idLen, s2, EndOfInput);
    GetPutInt(order, f.offset, offsetLen, s3, EndOfInput);
    GetPutData(order, f, rest);
    ParseFieldsAs(order, f, id + s2, s2, s3, rest);
  }

  /** What is written is read back, with whatever follows; without a length field nothing may follow. */
  lemma {:induction false} WriteParse(order: Order, f: StreamFrame, rest: seq<byte>)
    requires Encodable(f) && (f.dataLenPresent || rest == [])
    ensures Write(order, f).Some? && Parse(order, Write(order, f).value + rest) == Ok((f, rest))
  {
    var s := Write(order, f).value + rest;
    assert s[0] == TypeByte(f) && s[1..] == PutFields(order, f) + rest;
    TypeBits(f);
    ParsePutFields(order, f, rest);
  }

  lemma {:induction false} ParseParts(order: Order, s: seq<byte>)
    requires Parse(order, s).Ok?
    ensures var f := Parse(order, s).value.0; f.End() <= MAX_U64 && (f.fin || f.data != [])
  {
  }
}
