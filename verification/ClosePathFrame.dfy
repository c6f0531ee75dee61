/**
  The CLOSE_PATH frame (quic-go/internal/wire/close_path_frame.go). It carries the same ranges as an ACK
  frame in the same blocks, under a different header and without a delay or timestamps.
 */
module ClosePathFrames {
  import opened Basics
  import opened ByteOrder
  import opened PacketNumber
  import opened AckRanges
  import A = AckFrames

  datatype ClosePathFrame = ClosePathFrame(pathID: byte, largest: u64, lowest: u64, ranges: seq<AckRange>) {
    /** The acknowledgement that the frame contains. */
    function Ack(): A.AckFrame {
      A.AckFrame(pathID, largest, lowest, ranges, 0)
    }
  }

  function Flags(missing: bool, largestBits: nat, widthBits: nat): byte
    requires largestBits < 4 && widthBits < 4
  {
    (if missing then 0x10 else 0) + 4 * largestBits + widthBits
  }

  lemma {:induction false} FlagsBits(missing: bool, largestBits: nat, widthBits: nat)
    requires largestBits < 4 && widthBits < 4
    ensures var t := Flags(missing, largestBits, widthBits);
      (t / 16) % 2 == (if missing then 1 else 0) && (t / 4) % 4 == largestBits && t % 4 == widthBits
  {
  }

  /** The fixed bytes and, if packets are missing, the number of blocks. */
  function PutPrefix(h: A.Header): seq<byte> {
    [0x11, h.pathID, Flags(h.missing, A.LengthBits(MinLength(h.largest)), A.LengthBits(h.width))]
    + (if h.missing then [h.blocks] else [])
  }

  function PutHeader(order: Order, h: A.Header): seq<byte> {
    PutPrefix(h) + (Put(order, h.largest, MinLength(h.largest)) + Put(order, h.firstLength, h.width))
  }

  function WriteBody(order: Order, f: A.AckFrame): seq<byte>
    requires A.Ordered(f.ranges)
  {
    if f.ranges == [] then []
    else
      var top, rest := f.ranges[0].first, f.ranges[1..];
      DescendingPrefix(top, rest, A.Kept(f));
      PutBlocks(order, A.Width(f), AllBlocks(top, rest[..A.Kept(f)]))
  }

  function Write(order: Order, f: ClosePathFrame): (r: Result<seq<byte>, A.WriteError>)
    requires A.Ordered(f.ranges) && 1 <= f.lowest <= f.largest < TWO_48
  {
    if f.ranges != [] && f.largest != f.ranges[0].last then Err(A.InconsistentLargestAcked)
    else if f.ranges != [] && f.lowest != f.ranges[|f.ranges| - 1].first then Err(A.InconsistentLowestAcked)
    else if |f.ranges| > 1 && A.Kept(f.Ack()) == 0 then Err(A.InconsistentBlockCount)
    else Ok(PutHeader(order, A.FrameHeader(f.Ack(), 0)) + WriteBody(order, f.Ack()))
  }

  datatype Prefix = Prefix(missing: bool, width: Length, largestLength: Length, pathID: byte, blocks: byte)

  function GetPrefix(s: seq<byte>): Result<(Prefix, seq<byte>), A.ParseError> {
    if |s| < 3 then Err(A.EndOfInput)
    else
      var t, rest := s[2], s[3..];
      var missing := (t / 16) % 2 == 1;
      var (blocks, rest') :- if missing then A.GetByte(rest) else Ok((0, rest));
      if missing && blocks == 0 then Err(A.InvalidAckRanges)
      else Ok((Prefix(missing, A.LengthOf(t % 4), A.LengthOf((t / 4) % 4), s[1], blocks), rest'))
  }

  function GetHeader(order: Order, s: seq<byte>): Result<(A.Header, seq<byte>), A.ParseError> {
    var (p, s1) :- GetPrefix(s);
    GetNumbers(order, p, s1)
  }

  /** The largest packet number and the length of the first range. */
  function GetNumbers(order: Order, p: Prefix, s1: seq<byte>): Result<(A.Header, seq<byte>), A.ParseError> {
    var (largest, s2) :- GetInt(order, s1, p.largestLength, A.EndOfInput);
    assert largest < TWO_48 by { LengthFits(order, s1, p.largestLength); }
    var (firstLength, s3) :- GetInt(order, s2, p.width, A.EndOfInput);
    assert firstLength < TWO_48 by { LengthFits(order, s2, p.width); }
    if largest > 0 && firstLength < 1 then Err(A.InvalidFirstAckRange)
    else if firstLength > largest then Err(A.InvalidAckRanges)
    else Ok((A.Header(p.missing, p.width, p.pathID, largest, 0, p.blocks, firstLength), s3))
  }

  function ParseBody(order: Order, h: A.Header, s: seq<byte>): Result<(ClosePathFrame, seq<byte>), A.ParseError> {
    if h.missing then
      match ReadFrom(order, h.width, s, h.blocks, ReadState([], A.FirstRange(h), false, false))
      case None => Err(A.EndOfInput)
      case Some((st, s1)) =>
        var ranges := A.Finished(st);
        if ranges == [] || !Validate(h.largest, ranges) then Err(A.InvalidAckRanges)
        else Ok((ClosePathFrame(h.pathID, h.largest, ranges[|ranges| - 1].first, ranges), s1))
    else
      var lowest := if h.largest == 0 then 0 else Sub64(h.largest + 1, h.firstLength);
      Ok((ClosePathFrame(h.pathID, h.largest, lowest, []), s))
  }

  function Parse(order: Order, s: seq<byte>): Result<(ClosePathFrame, seq<byte>), A.ParseError> {
    var (h, s1) :- GetHeader(order, s);
    ParseBody(order, h, s1)
  }

  // ----- Round trip -----

  lemma {:induction false} GetPutPrefix(h: A.Header, rest: seq<byte>)
    requires if h.missing then h.blocks != 0 else h.blocks == 0
    ensures GetPrefix(PutPrefix(h) + rest)
      == Ok((PrefixFor(h), rest))
  {
    var len := MinLength(h.largest);
    FlagsBits(h.missing, A.LengthBits(len), A.LengthBits(h.width));
    A.LengthOfBits(len);
    A.LengthOfBits(h.width);
    var s := PutPrefix(h) + rest;
    assert s[3..] == (if h.missing then [h.blocks] else []) + rest;
    assert h.missing ==> ([h.blocks] + rest)[1..] == rest;
  }

  function PrefixFor(h: A.Header): Prefix {
    Prefix(h.missing, h.width, MinLength(h.largest), h.pathID, h.blocks)
  }

  lemma {:induction false} GetPutNumbers(order: Order, h: A.Header, rest: seq<byte>)
    requires h.firstLength < EpochDelta(h.width) && 1 <= h.firstLength <= h.largest && h.delay == 0
    ensures GetNumbers(order, PrefixFor(h),
      Put(order, h.largest, MinLength(h.largest)) + (Put(order, h.firstLength, h.width) + rest)) == Ok((h, rest))
  {
    var len := MinLength(h.largest);
    var s2 := Put(order, h.firstLength, h.width) + rest;
    assert h.largest < EpochDelta(len);
    GetPutInt(order, h.largest, len, s2, A.EndOfInput);
    GetPutInt(order, h.firstLength, h.width, rest, A.EndOfInput);
  }

  lemma {:induction false} GetPutHeader(order: Order, h: A.Header, rest: seq<byte>)
    requires h.firstLength < EpochDelta(h.width) && 1 <= h.firstLength <= h.largest && h.delay == 0
    requires if h.missing then h.blocks != 0 else h.blocks == 0
    ensures GetHeader(order, PutHeader(order, h) + rest) == Ok((h, rest))
  {
    var largest, first := Put(order, h.largest, MinLength(h.largest)), Put(order, h.firstLength, h.width);
    var s1 := largest + (first + rest);
    assert PutHeader(order, h) + rest == PutPrefix(h) + s1 by {
      Associate(largest, first, rest);
      Associate(PutPrefix(h), largest + first, rest);
    }
    assert GetPrefix(PutPrefix(h) + s1) == Ok((PrefixFor(h), s1)) by {
      GetPutPrefix(h, s1);
    }
    GetPutNumbers(order, h, rest);
  }

  /** What is left of a frame after truncation to fewer than 255 blocks. */
  function Received(f: ClosePathFrame): ClosePathFrame
    requires A.WellFormed(f.Ack())
  {
    var g := A.Received(f.Ack(), 0);
    ClosePathFrame(g.pathID, g.largest, g.lowest, g.ranges)
  }

  lemma {:induction false} ParseWrittenBody(order: Order, f: ClosePathFrame, rest: seq<byte>)
    requires A.WellFormed(f.Ack()) && (f.ranges != [] ==> A.Kept(f.Ack()) > 0)
    ensures ParseBody(order, A.FrameHeader(f.Ack(), 0), WriteBody(order, f.Ack()) + rest) == Ok((Received(f), rest))
  {
    if f.ranges != [] {
      A.ReadKept(f.Ack(), 0);
      A.KeptValid(f.Ack());
      var blocks := AllBlocks(f.ranges[0].first, f.ranges[1..][..A.Kept(f.Ack())]);
      ReadPutBlocks(order, A.Width(f.Ack()), blocks, rest,
        ReadState([], A.FirstRange(A.FrameHeader(f.Ack(), 0)), false, false));
    } else {
      assert WriteBody(order, f.Ack()) + rest == rest;
    }
  }

  /** What is written is read back: all the ranges that fit, and the frame's other fields. */
  lemma {:induction false} WriteParse(order: Order, f: ClosePathFrame, rest: seq<byte>)
    requires A.WellFormed(f.Ack()) && Write(order, f).Ok?
    ensures Parse(order, Write(order, f).value + rest) == Ok((Received(f), rest))
  {
    var h, s := A.FrameHeader(f.Ack(), 0), WriteBody(order, f.Ack()) + rest;
    assert Write(order, f).value + rest == PutHeader(order, h) + s by {
      Associate(PutHeader(order, h), WriteBody(order, f.Ack()), rest);
    }
    assert GetHeader(order, PutHeader(order, h) + s) == Ok((h, s)) by {
      A.WrittenHeader(f.Ack(), 0);
      GetPutHeader(order, h, s);
    }
    ParseWrittenBody(order, f, rest);
  }

  /** Whatever bytes arrive, a frame that the parser accepts is sound: no range has wrapped around. */
  lemma {:induction false} ParseSound(order: Order, s: seq<byte>)
    requires Parse(order, s).Ok?
    ensures A.Sound(Parse(order, s).value.0.Ack())
  {
    var (h, s1) := GetHeader(order, s).value;
    if h.missing {
      A.ReadSound(order, h, s1);
    }
  }

  function FrameLength(f: ClosePathFrame): nat
    requires A.Ordered(f.ranges)
  {
    3 + MinLength(f.largest)
    + if f.ranges != [] then (1 + A.Width(f.Ack())) * (WritableBlocks(f.ranges[0].first, f.ranges[1..], 0) + 1)
      else A.Width(f.Ack())
  }

  /** The length computed beforehand is the number of bytes written. */
  lemma {:induction false} LengthWritten(order: Order, f: ClosePathFrame)
    requires A.WellFormed(f.Ack()) && Write(order, f).Ok?
    ensures |Write(order, f).value| == FrameLength(f)
  {
    HeaderLength(order, A.FrameHeader(f.Ack(), 0));
    BodyLength(order, f);
  }

  lemma {:induction false} HeaderLength(order: Order, h: A.Header)
    ensures |PutHeader(order, h)| == 3 + (if h.missing then 1 else 0) + MinLength(h.largest) + h.width
  {
  }

  lemma {:induction false} BodyLength(order: Order, f: ClosePathFrame)
    requires A.WellFormed(f.Ack()) && (f.ranges != [] ==> A.Kept(f.Ack()) > 0)
    ensures 3 + (if f.ranges != [] then 1 else 0) + MinLength(f.largest) + A.Width(f.Ack())
      + |WriteBody(order, f.Ack())| == FrameLength(f)
  {
    if f.ranges != [] {
      A.ReadKept(f.Ack(), 0);
      var blocks := AllBlocks(f.ranges[0].first, f.ranges[1..][..A.Kept(f.Ack())]);
      PutBlocksLength(order, A.Width(f.Ack()), blocks);
      A.MulSucc(1 + A.Width(f.Ack()), |blocks|);
    }
  }

  // ----- The frame as the source writes and reads it -----

  method WriteFrame(order: Order, f: ClosePathFrame) returns (r: Result<seq<byte>, A.WriteError>)
    requires A.Ordered(f.ranges) && 1 <= f.lowest <= f.largest < TWO_48
    ensures r == Write(order, f)
  {
    var width := A.Width(f.Ack());
    if f.ranges == [] {
      var h := A.Header(false, width, f.pathID, f.largest, 0, 0, f.largest - f.lowest + 1);
      return Ok(PutHeader(order, h) + []);
    }
    var numBlocks := CountBlocks(f.ranges);
    if f.largest != f.ranges[0].last {
      return Err(A.InconsistentLargestAcked);
    }
    if f.lowest != f.ranges[|f.ranges| - 1].first {
      return Err(A.InconsistentLowestAcked);
    }
    A.WritableSome(f.ranges[0].first, f.ranges[1..]);
    var h := A.Header(true, width, f.pathID, f.largest, 0, numBlocks, f.largest - f.ranges[0].first + 1);
    var body, ok := WriteRanges(order, width, f.ranges, numBlocks);
    if !ok {
      return Err(A.InconsistentBlockCount);
    }
    assert h == A.FrameHeader(f.Ack(), 0) && body == WriteBody(order, f.Ack());
    r := Ok(PutHeader(order, h) + body);
  }

  method ParseFrame(order: Order, s: seq<byte>) returns (r: Result<(ClosePathFrame, seq<byte>), A.ParseError>)
    ensures r == Parse(order, s)
  {
    var header :- GetHeader(order, s);
    var h := header.0;
    if !h.missing {
      return ParseBody(order, h, header.1);
    }
    var read := ReadBlocks(order, h.width, header.1, h.blocks, ReadState([], A.FirstRange(h), false, false));
    if read.None? {
      return Err(A.EndOfInput);
    }
    ReadFromOk(order, h.width, header.1, h.blocks, ReadState([], A.FirstRange(h), false, false), A.FirstRange(h));
    var ranges := A.Finished(read.value.0);
    var ok := CheckRanges(h.largest, ranges);
    if !ok {
      return Err(A.InvalidAckRanges);
    }
    r := Ok((ClosePathFrame(h.pathID, h.largest, ranges[|ranges| - 1].first, ranges), read.value.1));
  }
}
