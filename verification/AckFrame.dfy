/**
  The ACK frame of Google QUIC with its path identifier (quic-go/internal/wire/ack_frame.go): writing,
  parsing, its length, and which packets it acknowledges. The ACK delay in microseconds is a parameter.
 */
module AckFrames {
  import opened Basics
  import opened ByteOrder
  import opened PacketNumber
  import opened AckRanges
  import Float16

  datatype AckFrame = AckFrame(pathID: byte, largest: u64, lowest: u64, ranges: seq<AckRange>, delay: nat)

  /** The ranges are in order, the highest first: what the source asks of every frame. */
  ghost predicate Ordered(ranges: seq<AckRange>) {
    ranges == [] || (1 <= ranges[0].first <= ranges[0].last < TWO_48 && Descending(ranges[0].first, ranges[1..]))
  }

  /** A frame as the receiver builds it: packet numbers from 1 on, ranges only if a packet is missing. */
  ghost predicate WellFormed(f: AckFrame) {
    && 1 <= f.lowest <= f.largest < TWO_48
    && Ordered(f.ranges) && |f.ranges| != 1
    && (f.ranges != [] ==> f.ranges[0].last == f.largest && f.ranges[|f.ranges| - 1].first == f.lowest)
  }

  // ----- Writing -----

  function MaxLength(ranges: seq<AckRange>): (n: nat)
    ensures forall x :: x in ranges ==> x.last - x.first + 1 <= n
  {
    if ranges == [] then 0
    else Max(ranges[0].last - ranges[0].first + 1, MaxLength(ranges[1..]))
  }

  /** The number of bytes used for the lengths of ranges. */
  function Width(f: AckFrame): (w: Length)
    requires Ordered(f.ranges)
  {
    var n := if f.ranges != [] then MaxLength(f.ranges) else f.largest - f.lowest + 1;
    if n <= 0xFF then 1 else if n <= 0xFFFF then 2 else if n <= 0xFFFF_FFFF then 4 else 6
  }

  datatype Header = Header(
    missing: bool, width: Length, pathID: byte, largest: u48, delay: u16, blocks: byte, firstLength: u48)

  function LengthBits(len: Length): (b: nat)
    ensures b < 4
  {
    if len == 1 then 0 else len / 2
  }

  /** The type byte: bits for missing packets, for the path identifier, and for the two lengths. */
  function TypeByte(missing: bool, path: bool, largestBits: nat, widthBits: nat): byte
    requires largestBits < 4 && widthBits < 4
  {
    0x40 + (if missing then 0x20 else 0) + (if path then 0x10 else 0) + 4 * largestBits + widthBits
  }

  lemma {:induction false} TypeByteBits(missing: bool, path: bool, largestBits: nat, widthBits: nat)
    requires largestBits < 4 && widthBits < 4
    ensures var t := TypeByte(missing, path, largestBits, widthBits);
      (t / 32) % 2 == (if missing then 1 else 0) && (t / 16) % 2 == (if path then 1 else 0)
      && (t / 4) % 4 == largestBits && t % 4 == widthBits
  {
    var t := TypeByte(missing, path, largestBits, widthBits);
    var m, p := if missing then 1 else 0, if path then 1 else 0;
    assert t / 32 == 2 + m;
    assert t / 16 == 4 + 2 * m + p;
    assert t / 4 == 4 * (4 + 2 * m + p) + largestBits;
  }

  /** The header up to the delay. */
  function PutPrefix(order: Order, h: Header): seq<byte> {
    [TypeByte(h.missing, h.pathID != 0, LengthBits(MinLength(h.largest)), LengthBits(h.width))]
    + ((if h.pathID != 0 then [h.pathID] else [])
    + (Put(order, h.largest, MinLength(h.largest))
    + Put(order, h.delay, 2)))
  }

  /** The number of blocks, if there are any, and the length of the first range. */
  function PutFirst(order: Order, h: Header): seq<byte> {
    (if h.missing then [h.blocks] else []) + Put(order, h.firstLength, h.width)
  }

  function PutHeader(order: Order, h: Header): seq<byte> {
    PutPrefix(order, h) + PutFirst(order, h)
  }

  datatype WriteError = InconsistentLargestAcked | InconsistentLowestAcked | InconsistentBlockCount

  /** The ranges after the first one that fit into the frame. */
  function Kept(f: AckFrame): (k: nat)
    requires Ordered(f.ranges) && f.ranges != []
    ensures k < |f.ranges|
  {
    Writable(f.ranges[0].first, f.ranges[1..], 0)
  }

  function FrameHeader(f: AckFrame, delay: nat): Header
    requires Ordered(f.ranges) && f.lowest <= f.largest < TWO_48 && 0 < f.lowest
    requires f.ranges != [] ==> f.largest == f.ranges[0].last
  {
    if f.ranges == [] then
      Header(false, Width(f), f.pathID, f.largest, Float16.Encode(delay), 0, f.largest - f.lowest + 1)
    else
      var top, rest := f.ranges[0].first, f.ranges[1..];
      DescendingPrefix(top, rest, Kept(f));
      RemainingCount(top, rest, 0);
      Header(true, Width(f), f.pathID, f.largest, Float16.Encode(delay),
        WritableBlocks(top, rest, 0), f.largest - top + 1)
  }

  function WriteBody(order: Order, f: AckFrame): seq<byte>
    requires Ordered(f.ranges)
  {
    if f.ranges == [] then [0]
    else
      var top, rest := f.ranges[0].first, f.ranges[1..];
      DescendingPrefix(top, rest, Kept(f));
      PutBlocks(order, Width(f), AllBlocks(top, rest[..Kept(f)])) + [0]
  }

  function Write(order: Order, f: AckFrame, delay: nat): (r: Result<seq<byte>, WriteError>)
    requires Ordered(f.ranges) && 1 <= f.lowest <= f.largest < TWO_48
  {
    if f.ranges != [] && f.largest != f.ranges[0].last then Err(InconsistentLargestAcked)
    else if f.ranges != [] && f.lowest != f.ranges[|f.ranges| - 1].first then Err(InconsistentLowestAcked)
    else if |f.ranges| > 1 && Kept(f) == 0 then Err(InconsistentBlockCount)
    else Ok(PutHeader(order, FrameHeader(f, delay)) + WriteBody(order, f))
  }

  // ----- Parsing -----

  datatype ParseError = EndOfInput | InvalidAckRanges | InvalidFirstAckRange

  function GetByte(s: seq<byte>): Result<(byte, seq<byte>), ParseError> {
    if s == [] then Err(EndOfInput) else Ok((s[0], s[1..]))
  }

  function LengthOf(bits: nat): Length
    requires bits < 4
  {
    if bits == 0 then 1 else 2 * bits
  }

  datatype Prefix = Prefix(missing: bool, width: Length, pathID: byte, largest: u48, delay: u16)

  function GetPrefix(order: Order, s: seq<byte>): Result<(Prefix, seq<byte>), ParseError> {
    var (t, s1) :- GetByte(s);
    var len := LengthOf((t / 4) % 4);
    var (pathID, s2) :- if (t / 16) % 2 == 1 then GetByte(s1) else Ok((0, s1));
    var (largest, s3) :- GetInt(order, s2, len, EndOfInput);
    assert largest < TWO_48 by { LengthFits(order, s2, len); }
    var (delay, s4) :- GetInt(order, s3, 2, EndOfInput);
    assert delay < 0x1_0000 by { ValueBound(order, s3[..2]); EpochDeltas(); }
    Ok((Prefix((t / 32) % 2 == 1, LengthOf(t % 4), pathID, largest, delay), s4))
  }

  function GetFirst(order: Order, p: Prefix, s: seq<byte>): Result<(byte, u48, seq<byte>), ParseError> {
    var (blocks, s1) :- if p.missing then GetByte(s) else Ok((0, s));
    if p.missing && blocks == 0 then Err(InvalidAckRanges) else
    var (firstLength, s2) :- GetInt(order, s1, p.width, EndOfInput);
    assert firstLength < TWO_48 by { LengthFits(order, s1, p.width); }
    if p.largest > 0 && firstLength < 1 then Err(InvalidFirstAckRange)
    else if firstLength > p.largest then Err(InvalidAckRanges)
    else Ok((blocks, firstLength, s2))
  }

  function GetHeader(order: Order, s: seq<byte>): Result<(Header, seq<byte>), ParseError> {
    var (p, s1) :- GetPrefix(order, s);
    var (blocks, firstLength, s2) :- GetFirst(order, p, s1);
    Ok((Header(p.missing, p.width, p.pathID, p.largest, p.delay, blocks, firstLength), s2))
  }

  /** The timestamps at the end of a frame are skipped. */
  function SkipTimestamps(s: seq<byte>): Result<seq<byte>, ParseError> {
    var (n, s1) :- GetByte(s);
    var size := if n == 0 then 0 else 5 + 3 * (n - 1);
    if size <= |s1| then Ok(s1[size..]) else Err(EndOfInput)
  }

  /** The range that the header describes. */
  function FirstRange(h: Header): AckRange {
    AckRange(Add64(Sub64(h.largest, h.firstLength), 1), h.largest)
  }

  /** The ranges read; an unfinished last range is dropped. */
  function Finished(st: ReadState): seq<AckRange> {
    if st.complete then Ranges(st) else st.before
  }

  function ParseBody(order: Order, h: Header, s: seq<byte>): Result<(AckFrame, seq<byte>), ParseError> {
    if h.missing then
      match ReadFrom(order, h.width, s, h.blocks, ReadState([], FirstRange(h), false, false))
      case None => Err(EndOfInput)
      case Some((st, s1)) =>
        var ranges := Finished(st);
        if ranges == [] || !Validate(h.largest, ranges) then Err(InvalidAckRanges)
        else
          var s2 :- SkipTimestamps(s1);
          Ok((AckFrame(h.pathID, h.largest, ranges[|ranges| - 1].first, ranges, Float16.Decode(h.delay)), s2))
    else
      var lowest := if h.largest == 0 then 0 else Sub64(h.largest + 1, h.firstLength);
      var s2 :- SkipTimestamps(s);
      Ok((AckFrame(h.pathID, h.largest, lowest, [], Float16.Decode(h.delay)), s2))
  }

  function Parse(order: Order, s: seq<byte>): Result<(AckFrame, seq<byte>), ParseError> {
    var (h, s1) :- GetHeader(order, s);
    ParseBody(order, h, s1)
  }

  // ----- Round trip -----

  lemma {:induction false} LengthOfBits(len: Length)
    ensures LengthOf(LengthBits(len)) == len
  {
  }

  lemma {:induction false} GetPutPrefix(order: Order, h: Header, rest: seq<byte>)
    ensures GetPrefix(order, PutPrefix(order, h) + rest)
      == Ok((Prefix(h.missing, h.width, h.pathID, h.largest, h.delay), rest))
  {
    EpochDeltas();
    var len := MinLength(h.largest);
    var t := TypeByte(h.missing, h.pathID != 0, LengthBits(len), LengthBits(h.width));
    TypeByteBits(h.missing, h.pathID != 0, LengthBits(len), LengthBits(h.width));
    LengthOfBits(len);
    LengthOfBits(h.width);
    var s3 := Put(order, h.delay, 2) + rest;
    var s2 := Put(order, h.largest, len) + s3;
    PrefixParts(order, h, rest, t);
    GetPutInt(order, h.largest, len, s3, EndOfInput);
    GetPutInt(order, h.delay, 2, rest, EndOfInput);
  }

  lemma {:induction false} PrefixParts(order: Order, h: Header, rest: seq<byte>, t: byte)
    requires t == TypeByte(h.missing, h.pathID != 0, LengthBits(MinLength(h.largest)), LengthBits(h.width))
    ensures var s2 := Put(order, h.largest, MinLength(h.largest)) + (Put(order, h.delay, 2) + rest);
      var s1 := (if h.pathID != 0 then [h.pathID] else []) + s2;
      && GetByte(PutPrefix(order, h) + rest) == Ok((t, s1))
      && (if h.pathID != 0 then GetByte(s1) == Ok((h.pathID, s2)) else s1 == s2)
  {
    var s2 := Put(order, h.largest, MinLength(h.largest)) + (Put(order, h.delay, 2) + rest);
    var path := if h.pathID != 0 then [h.pathID] else [];
    Regroup([t], path, Put(order, h.largest, MinLength(h.largest)), Put(order, h.delay, 2), rest);
    assert PutPrefix(order, h) + rest == [t] + (path + s2);
    assert ([t] + (path + s2))[1..] == path + s2;
    if h.pathID != 0 {
      assert ([h.pathID] + s2)[1..] == s2;
    } else {
      assert path + s2 == s2;
    }
  }

  lemma {:induction false} Regroup(a: seq<byte>, b: seq<byte>, c: seq<byte>, d: seq<byte>, e: seq<byte>)
    ensures (a + (b + (c + d))) + e == a + (b + (c + (d + e)))
  {
  }

  lemma {:induction false} GetPutFirst(order: Order, h: Header, rest: seq<byte>)
    requires h.firstLength < EpochDelta(h.width) && 1 <= h.firstLength <= h.largest
    requires if h.missing then h.blocks != 0 else h.blocks == 0
    ensures GetFirst(order, Prefix(h.missing, h.width, h.pathID, h.largest, h.delay), PutFirst(order, h) + rest)
      == Ok((h.blocks, h.firstLength, rest))
  {
    var s1 := Put(order, h.firstLength, h.width) + rest;
    var s := PutFirst(order, h) + rest;
    if h.missing {
      assert GetByte(s) == Ok((h.blocks, s1)) by {
        Associate([h.blocks], Put(order, h.firstLength, h.width), rest);
        assert ([h.blocks] + s1)[1..] == s1;
      }
    } else {
      assert s == s1;
    }
    GetPutInt(order, h.firstLength, h.width, rest, EndOfInput);
    GetFirstAs(order, h, s, s1, rest);
  }

  lemma {:induction false} GetFirstAs(order: Order, h: Header, s: seq<byte>, s1: seq<byte>, rest: seq<byte>)
    requires 1 <= h.firstLength <= h.largest && (if h.missing then h.blocks != 0 else h.blocks == 0)
    requires if h.missing then GetByte(s) == Ok((h.blocks, s1)) else s == s1
    requires GetInt(order, s1, h.width, EndOfInput) == Ok((h.firstLength, rest))
    ensures GetFirst(order, Prefix(h.missing, h.width, h.pathID, h.largest, h.delay), s)
      == Ok((h.blocks, h.firstLength, rest))
  {
  }

  /** The header is read back, if the lengths fit and a frame with missing packets has blocks. */
  lemma {:induction false} GetPutHeader(order: Order, h: Header, rest: seq<byte>)
    requires h.firstLength < EpochDelta(h.width) && 1 <= h.firstLength <= h.largest
    requires if h.missing then h.blocks != 0 else h.blocks == 0
    ensures GetHeader(order, PutHeader(order, h) + rest) == Ok((h, rest))
  {
    assert PutHeader(order, h) + rest == PutPrefix(order, h) + (PutFirst(order, h) + rest);
    GetPutPrefix(order, h, PutFirst(order, h) + rest);
    GetPutFirst(order, h, rest);
  }

  lemma {:induction false} WidthFits(f: AckFrame)
    requires Ordered(f.ranges) && 1 <= f.lowest <= f.largest < TWO_48
    ensures f.ranges == [] ==> f.largest - f.lowest + 1 < EpochDelta(Width(f))
    ensures f.ranges != [] ==> MaxLength(f.ranges) < EpochDelta(Width(f)) || EpochDelta(Width(f)) == TWO_48
  {
    EpochDeltas();
  }

  lemma {:induction false} RangeBlocksFit(gap: nat, length: u48, width: nat)
    requires length < Pow256(width)
    ensures LengthsFit(RangeBlocks(gap, length), width)
  {
    if gap > 255 {
      RangeBlocksFit(gap - 255, length, width);
    }
  }

  lemma {:induction false} AllBlocksFit(top: nat, ranges: seq<AckRange>, width: nat)
    requires top <= TWO_48 && Descending(top, ranges)
    requires forall x :: x in ranges ==> x.last - x.first + 1 < Pow256(width)
    ensures LengthsFit(AllBlocks(top, ranges), width)
    decreases |ranges|
  {
    if ranges != [] {
      RangeBlocksFit(top - ranges[0].last - 1, ranges[0].last - ranges[0].first + 1, width);
      AllBlocksFit(ranges[0].first, ranges[1..], width);
    }
  }

  lemma {:induction false} RangesBelow(top: nat, ranges: seq<AckRange>)
    requires Descending(top, ranges)
    ensures forall x :: x in ranges ==> x.first <= x.last && x.last + 1 < top
    decreases |ranges|
  {
    if ranges != [] {
      RangesBelow(ranges[0].first, ranges[1..]);
    }
  }

  /** Every range is short enough for the chosen width. */
  lemma {:induction false} RangesFit(f: AckFrame)
    requires WellFormed(f)
    ensures forall x :: x in f.ranges ==> x.last - x.first + 1 < EpochDelta(Width(f))
  {
    WidthFits(f);
    if f.ranges != [] {
      RangesBelow(f.ranges[0].first, f.ranges[1..]);
    }
  }

  /** What is left of a frame after truncation to fewer than 255 blocks and rounding of the delay. */
  function Received(f: AckFrame, delay: nat): AckFrame
    requires WellFormed(f)
  {
    var kept := if f.ranges == [] then [] else f.ranges[..Kept(f) + 1];
    f.(
      ranges := kept,
      lowest := if kept == [] then f.lowest else kept[|kept| - 1].first,
      delay := Float16.Decode(Float16.Encode(delay)))
  }

  lemma {:induction false} ReadKept(f: AckFrame, delay: nat)
    requires WellFormed(f) && f.ranges != [] && Kept(f) > 0
    ensures var top, rest, h := f.ranges[0].first, f.ranges[1..], FrameHeader(f, delay);
      && Descending(top, rest[..Kept(f)])
      && var blocks := AllBlocks(top, rest[..Kept(f)]);
        && |blocks| == h.blocks > 0 && LengthsFit(blocks, Width(f))
        && Finished(AddBlocks(ReadState([], FirstRange(h), false, false), blocks)) == f.ranges[..Kept(f) + 1]
  {
    var top, rest, k := f.ranges[0].first, f.ranges[1..], Kept(f);
    DescendingPrefix(top, rest, k);
    KeptBlocks(f, delay, rest[..k]);
    FirstKept(f, delay);
    ReadRanges(f.ranges[0], rest[..k]);
    FirstAndRest(f.ranges, k);
  }

  lemma {:induction false} FirstKept(f: AckFrame, delay: nat)
    requires WellFormed(f) && f.ranges != []
    ensures FirstRange(FrameHeader(f, delay)) == f.ranges[0] && f.ranges[0].first < TWO_48
  {
  }

  lemma {:induction false} FirstAndRest(ranges: seq<AckRange>, k: nat)
    requires k < |ranges|
    ensures [ranges[0]] + ranges[1..][..k] == ranges[..k + 1]
  {
  }

  lemma {:induction false} ReadRanges(first: AckRange, ranges: seq<AckRange>)
    requires first.first < TWO_48 && Descending(first.first, ranges) && ranges != []
    ensures Finished(AddBlocks(ReadState([], first, false, false), AllBlocks(first.first, ranges))) == [first] + ranges
  {
    AddAllBlocks(ReadState([], first, false, false), ranges);
    assert [] + [first] + ranges == [first] + ranges;
  }

  /** The number of blocks is written, and their lengths fit the width chosen. */
  lemma {:induction false} KeptBlocks(f: AckFrame, delay: nat, kept: seq<AckRange>)
    requires WellFormed(f) && f.ranges != [] && Kept(f) > 0 && kept == f.ranges[1..][..Kept(f)]
    requires Descending(f.ranges[0].first, kept)
    ensures var blocks := AllBlocks(f.ranges[0].first, kept);
      |blocks| == FrameHeader(f, delay).blocks > 0 && LengthsFit(blocks, Width(f))
  {
    var top := f.ranges[0].first;
    AllBlocksNonempty(top, kept);
    assert |AllBlocks(top, kept)| == FrameHeader(f, delay).blocks by {
      RemainingCount(top, f.ranges[1..], 0);
    }
    assert LengthsFit(AllBlocks(top, kept), Width(f)) by {
      RangesFit(f);
      AllBlocksFit(top, kept, Width(f));
    }
  }

  lemma {:induction false} AllBlocksNonempty(top: nat, ranges: seq<AckRange>)
    requires top <= TWO_48 && Descending(top, ranges) && ranges != []
    ensures AllBlocks(top, ranges) != []
  {
  }

  lemma {:induction false} KeptValid(f: AckFrame)
    requires WellFormed(f) && f.ranges != [] && Kept(f) > 0
    ensures Validate(f.largest, f.ranges[..Kept(f) + 1])
  {
    var top, rest, k := f.ranges[0].first, f.ranges[1..], Kept(f);
    DescendingPrefix(top, rest, k);
    DescendingConsecutive(f.ranges[0], rest[..k]);
    assert [f.ranges[0]] + rest[..k] == f.ranges[..k + 1];
  }

  lemma {:induction false} SkipNoTimestamps(rest: seq<byte>)
    ensures SkipTimestamps([0] + rest) == Ok(rest)
  {
    assert ([0] + rest)[1..] == rest;
  }

  /** Writing succeeds except when the first gap alone needs 255 blocks or more. */
  lemma {:induction false} WriteSucceeds(order: Order, f: AckFrame, delay: nat)
    requires WellFormed(f)
    ensures Write(order, f, delay).Ok? <==>
      (f.ranges != [] ==> BlocksFor(f.ranges[0].first - f.ranges[1].last - 1) < 255)
  {
    assert f.ranges != [] ==> f.ranges[1..][0] == f.ranges[1];
  }

  lemma {:induction false} ParseWrittenBody(order: Order, f: AckFrame, delay: nat, rest: seq<byte>)
    requires WellFormed(f) && (f.ranges != [] ==> Kept(f) > 0)
    ensures ParseBody(order, FrameHeader(f, delay), WriteBody(order, f) + rest) == Ok((Received(f, delay), rest))
  {
    SkipNoTimestamps(rest);
    if f.ranges != [] {
      ReadKept(f, delay);
      KeptValid(f);
      var blocks := AllBlocks(f.ranges[0].first, f.ranges[1..][..Kept(f)]);
      assert WriteBody(order, f) + rest == PutBlocks(order, Width(f), blocks) + ([0] + rest);
      ReadPutBlocks(order, Width(f), blocks, [0] + rest,
        ReadState([], FirstRange(FrameHeader(f, delay)), false, false));
    }
  }

  lemma {:induction false} WrittenHeader(f: AckFrame, delay: nat)
    requires WellFormed(f) && (f.ranges != [] ==> Kept(f) > 0)
    ensures var h := FrameHeader(f, delay);
      && h.firstLength < EpochDelta(h.width) && 1 <= h.firstLength <= h.largest
      && if h.missing then h.blocks != 0 else h.blocks == 0
  {
    WidthFits(f);
    RangesFit(f);
    if f.ranges != [] {
      ReadKept(f, delay);
    }
  }

  /** What is written is read back: all the ranges that fit, and the frame's other fields. */
  lemma {:induction false} WriteParse(order: Order, f: AckFrame, delay: nat, rest: seq<byte>)
    requires WellFormed(f) && Write(order, f, delay).Ok?
    ensures Parse(order, Write(order, f, delay).value + rest) == Ok((Received(f, delay), rest))
  {
    var h, s := FrameHeader(f, delay), WriteBody(order, f) + rest;
    assert Write(order, f, delay).value + rest == PutHeader(order, h) + s by {
      Associate(PutHeader(order, h), WriteBody(order, f), rest);
    }
    assert GetHeader(order, PutHeader(order, h) + s) == Ok((h, s)) by {
      WrittenHeader(f, delay);
      GetPutHeader(order, h, s);
    }
    assert ParseBody(order, h, s) == Ok((Received(f, delay), rest)) by {
      ParseWrittenBody(order, f, delay, rest);
    }
  }

  // ----- Length -----

  function FrameLength(f: AckFrame): nat
    requires Ordered(f.ranges)
  {
    4 + MinLength(f.largest)
    + (if f.ranges != [] then (1 + Width(f)) * (WritableBlocks(f.ranges[0].first, f.ranges[1..], 0) + 1) else Width(f))
    + (if f.pathID != 0 then 1 else 0)
  }

  /** The length computed beforehand is the number of bytes written. */
  lemma {:induction false} LengthWritten(order: Order, f: AckFrame, delay: nat)
    requires WellFormed(f) && Write(order, f, delay).Ok?
    ensures |Write(order, f, delay).value| == FrameLength(f)
  {
    HeaderLength(order, FrameHeader(f, delay));
    BodyLength(order, f, delay);
  }

  lemma {:induction false} HeaderLength(order: Order, h: Header)
    ensures |PutHeader(order, h)|
      == 3 + MinLength(h.largest) + h.width + (if h.pathID != 0 then 1 else 0) + (if h.missing then 1 else 0)
  {
  }

  lemma {:induction false} BodyLength(order: Order, f: AckFrame, delay: nat)
    requires WellFormed(f) && (f.ranges != [] ==> Kept(f) > 0)
    ensures 3 + MinLength(f.largest) + Width(f) + (if f.pathID != 0 then 1 else 0)
      + (if f.ranges != [] then 1 else 0) + |WriteBody(order, f)| == FrameLength(f)
  {
    if f.ranges != [] {
      var top, kept := f.ranges[0].first, f.ranges[1..][..Kept(f)];
      DescendingPrefix(top, f.ranges[1..], Kept(f));
      var blocks := AllBlocks(top, kept);
      assert |blocks| == WritableBlocks(top, f.ranges[1..], 0) by {
        KeptBlocks(f, delay, kept);
      }
      assert |WriteBody(order, f)| == (1 + Width(f)) * |blocks| + 1 by {
        PutBlocksLength(order, Width(f), blocks);
      }
      MulSucc(1 + Width(f), |blocks|);
    }
  }

  lemma {:induction false} MulSucc(w: nat, n: nat)
    ensures w * (n + 1) == w * n + w
  {
  }

  // ----- What a parsed frame guarantees -----

  /** The frame passed validation: its ranges descend and its bounds are those of its ranges. */
  ghost predicate Sound(f: AckFrame) {
    && f.lowest <= f.largest < TWO_48
    && (f.ranges != [] ==>
      && f.ranges[0].first <= f.ranges[0].last == f.largest
      && Descending(f.ranges[0].first, f.ranges[1..])
      && f.lowest == f.ranges[|f.ranges| - 1].first)
  }

  /** Whatever blocks arrive, ranges that pass validation descend from the first range. */
  lemma {:induction false} ReadSound(order: Order, h: Header, s: seq<byte>)
    requires h.firstLength <= h.largest && (h.largest > 0 ==> 1 <= h.firstLength) && h.blocks > 0
    requires var r := ReadFrom(order, h.width, s, h.blocks, ReadState([], FirstRange(h), false, false));
      r.Some? && Finished(r.value.0) != [] && Validate(h.largest, Finished(r.value.0))
    ensures var r := ReadFrom(order, h.width, s, h.blocks, ReadState([], FirstRange(h), false, false));
      var ranges := Finished(r.value.0);
      && ranges[0].first <= ranges[0].last == h.largest
      && Descending(ranges[0].first, ranges[1..])
      && ranges[|ranges| - 1].first <= h.largest
  {
    var init := ReadState([], FirstRange(h), false, false);
    ReadFromOk(order, h.width, s, h.blocks, init, FirstRange(h));
    var ranges := Finished(ReadFrom(order, h.width, s, h.blocks, init).value.0);
    assert ranges[0] == FirstRange(h) && ranges[0] in ranges;
    FinishedDescends(ranges);
  }

  lemma {:induction false} FinishedDescends(ranges: seq<AckRange>)
    requires ranges != [] && ranges[0].first <= ranges[0].last < TWO_48 && Consecutive(ranges)
    requires forall x :: x in ranges ==> LengthOk(x) && x.first <= x.last
    ensures Descending(ranges[0].first, ranges[1..])
    ensures ranges[|ranges| - 1].first <= ranges[0].last
  {
    var rest := ranges[1..];
    assert ranges == [ranges[0]] + rest;
    ConsecutiveDescends(ranges[0], rest);
    LowestIsLower(ranges[0], rest);
  }

  /** Whatever bytes arrive, a frame that the parser accepts is sound: no range has wrapped around. */
  lemma {:induction false} ParseSound(order: Order, s: seq<byte>)
    requires Parse(order, s).Ok?
    ensures Sound(Parse(order, s).value.0)
  {
    HeaderSound(order, s);
    BodySound(order, GetHeader(order, s).value.0, GetHeader(order, s).value.1);
  }

  lemma {:induction false} HeaderSound(order: Order, s: seq<byte>)
    requires GetHeader(order, s).Ok?
    ensures var h := GetHeader(order, s).value.0;
      h.firstLength <= h.largest && (h.largest > 0 ==> 1 <= h.firstLength) && (h.missing ==> h.blocks > 0)
  {
  }

  lemma {:induction false} BodySound(order: Order, h: Header, s: seq<byte>)
    requires h.firstLength <= h.largest && (h.largest > 0 ==> 1 <= h.firstLength) && (h.missing ==> h.blocks > 0)
    requires ParseBody(order, h, s).Ok?
    ensures Sound(ParseBody(order, h, s).value.0)
  {
    if h.missing {
      ReadSound(order, h, s);
    }
  }

  // ----- Acknowledged packets -----

  predicate AcksPacket(f: AckFrame, p: nat) {
    f.lowest <= p <= f.largest && (f.ranges != [] ==> Contains(f.ranges, p))
  }

  /** The bounds check of `AcksPacket` is only an optimisation: the ranges alone decide. */
  lemma {:induction false} AcksPacketByRanges(f: AckFrame, p: nat)
    requires Sound(f) && f.ranges != []
    ensures AcksPacket(f, p) <==> Contains(f.ranges, p)
  {
    if Contains(f.ranges, p) {
      assert f.ranges == [f.ranges[0]] + f.ranges[1..];
      ContainsBounds(f.ranges[0], f.ranges[1..], p);
    }
  }

  lemma {:induction false} ContainsPrefix(ranges: seq<AckRange>, k: nat, p: nat)
    requires k <= |ranges| && Contains(ranges[..k], p)
    ensures Contains(ranges, p)
  {
    assert ranges[..k][1..] == ranges[1..][..k - 1];
    if !(ranges[0].first <= p <= ranges[0].last) {
      ContainsPrefix(ranges[1..], k - 1, p);
    }
  }

  /** Truncation only forgets: what arrives acknowledges its largest number, and nothing the sender left out. */
  lemma {:induction false} ReceivedAcks(f: AckFrame, delay: nat, p: nat)
    requires WellFormed(f)
    ensures AcksPacket(Received(f, delay), p) ==> AcksPacket(f, p)
    ensures AcksPacket(Received(f, delay), f.largest)
  {
    var g := Received(f, delay);
    if f.ranges != [] {
      var kept := f.ranges[..Kept(f) + 1];
      assert f.ranges == [f.ranges[0]] + f.ranges[1..];
      assert Contains(kept, f.largest);
      KeptBound(f);
      if AcksPacket(g, p) {
        ContainsPrefix(f.ranges, Kept(f) + 1, p);
        ContainsBounds(f.ranges[0], f.ranges[1..], p);
      }
    }
  }

  lemma {:induction false} KeptBound(f: AckFrame)
    requires WellFormed(f) && f.ranges != []
    ensures f.ranges[Kept(f)].first <= f.largest
  {
    RangesBelow(f.largest + 2, f.ranges);
    assert f.ranges[Kept(f)] in f.ranges;
  }

  // ----- The frame as the source writes and reads it -----

  lemma {:induction false} WritableSome(top: nat, ranges: seq<AckRange>)
    requires top <= TWO_48 && Descending(top, ranges)
    ensures Writable(top, ranges, 0) > 0 <==> WritableBlocks(top, ranges, 0) > 0
    ensures WritableBlocks(top, ranges, 0) < 255
  {
    DescendingPrefix(top, ranges, Writable(top, ranges, 0));
    RemainingCount(top, ranges, 0);
    if Writable(top, ranges, 0) > 0 {
      AllBlocksNonempty(top, ranges[..Writable(top, ranges, 0)]);
    }
  }

  method WriteFrame(order: Order, f: AckFrame, delay: nat) returns (r: Result<seq<byte>, WriteError>)
    requires Ordered(f.ranges) && 1 <= f.lowest <= f.largest < TWO_48 && delay <= MAX_U64
    ensures r == Write(order, f, delay)
  {
    var encoded := Float16.EncodeFast(delay);
    var width := Width(f);
    if f.ranges == [] {
      var h := Header(false, width, f.pathID, f.largest, encoded, 0, f.largest - f.lowest + 1);
      return Ok(PutHeader(order, h) + [0]);
    }
    var numBlocks := CountBlocks(f.ranges);
    if f.largest != f.ranges[0].last {
      return Err(InconsistentLargestAcked);
    }
    if f.lowest != f.ranges[|f.ranges| - 1].first {
      return Err(InconsistentLowestAcked);
    }
    WritableSome(f.ranges[0].first, f.ranges[1..]);
    var h := Header(true, width, f.pathID, f.largest, encoded, numBlocks, f.largest - f.ranges[0].first + 1);
    var body, ok := WriteRanges(order, width, f.ranges, numBlocks);
    if !ok {
      return Err(InconsistentBlockCount);
    }
    assert h == FrameHeader(f, delay) && body + [0] == WriteBody(order, f);
    r := Ok(PutHeader(order, h) + (body + [0]));
  }

  method ParseFrame(order: Order, s: seq<byte>) returns (r: Result<(AckFrame, seq<byte>), ParseError>)
    ensures r == Parse(order, s)
  {
    var header :- GetHeader(order, s);
    if header.0.missing {
      r := ParseRanges(order, header.0, header.1);
    } else {
      r := ParseBody(order, header.0, header.1);
    }
  }

  method ParseRanges(order: Order, h: Header, s: seq<byte>) returns (r: Result<(AckFrame, seq<byte>), ParseError>)
    requires h.missing && h.blocks > 0
    ensures r == ParseBody(order, h, s)
  {
    var read := ReadBlocks(order, h.width, s, h.blocks, ReadState([], FirstRange(h), false, false));
    if read.None? {
      return Err(EndOfInput);
    }
    ReadFromOk(order, h.width, s, h.blocks, ReadState([], FirstRange(h), false, false), FirstRange(h));
    var ranges := Finished(read.value.0);
    var ok := CheckRanges(h.largest, ranges);
    if !ok {
      return Err(InvalidAckRanges);
    }
    var rest :- SkipTimestamps(read.value.1);
    r := Ok((AckFrame(h.pathID, h.largest, ranges[|ranges| - 1].first, ranges, Float16.Decode(h.delay)), rest));
  }
}
