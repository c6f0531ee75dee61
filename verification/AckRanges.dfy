/**
  ACK ranges and the block format in which ACK and CLOSE_PATH frames carry them
  (quic-go/internal/wire/ack_frame.go, quic-go/internal/wire/close_path_frame.go).

  Ranges are listed from the highest to the lowest. After the first range every range is written as a
  gap byte and a length; a gap above 255 is spread over several blocks of length 0.
 */
module AckRanges {
  import opened Basics
  import opened ByteOrder
  import opened PacketNumber

  /** The largest packet number that fits into six bytes, plus one. */
  const TWO_48: nat := 0x1_0000_0000_0000

  type u48 = x: int | 0 <= x < TWO_48

  datatype AckRange = AckRange(first: u64, last: u64)

  // ----- Well-formed ranges -----

  /** The ranges are nonempty and descend from `top`, with at least one packet missing before each of them. */
  ghost predicate Descending(top: nat, ranges: seq<AckRange>)
    decreases |ranges|
  {
    ranges == [] ||
    (ranges[0].first <= ranges[0].last && ranges[0].last + 1 < top && Descending(ranges[0].first, ranges[1..]))
  }

  /** Some range contains the packet number. */
  predicate Contains(ranges: seq<AckRange>, p: nat) {
    ranges != [] && (ranges[0].first <= p <= ranges[0].last || Contains(ranges[1..], p))
  }

  lemma {:induction false} LowestIsLower(x: AckRange, ranges: seq<AckRange>)
    requires x.first <= x.last && Descending(x.first, ranges)
    ensures ([x] + ranges)[|ranges|].first <= x.first
    decreases |ranges|
  {
    if ranges != [] {
      LowestIsLower(ranges[0], ranges[1..]);
      assert ([x] + ranges)[|ranges|] == ([ranges[0]] + ranges[1..])[|ranges[1..]|];
    }
  }

  lemma {:induction false} ContainsBounds(x: AckRange, ranges: seq<AckRange>, p: nat)
    requires x.first <= x.last && Descending(x.first, ranges) && Contains([x] + ranges, p)
    ensures ([x] + ranges)[|ranges|].first <= p <= x.last
    decreases |ranges|
  {
    var all := [x] + ranges;
    assert all[1..] == ranges;
    LowestIsLower(x, ranges);
    if ranges != [] {
      assert ranges == [ranges[0]] + ranges[1..];
      if Contains(ranges, p) {
        ContainsBounds(ranges[0], ranges[1..], p);
        assert all[|ranges|] == ranges[|ranges[1..]|];
      }
    }
  }

  // ----- Ranges as blocks -----

  /** A gap byte and the length of a range; length 0 means that the gap goes on in the next block. */
  datatype Block = Block(gap: byte, length: u48)

  /** The number of blocks that a gap needs. */
  function BlocksFor(gap: nat): nat {
    if gap % 255 == 0 then gap / 255 else gap / 255 + 1
  }

  /** The blocks of one range: full gaps of length 0 first, then the rest of the gap with the length. */
  function RangeBlocks(gap: nat, length: u48): seq<Block> {
    if gap <= 255 then [Block(gap, length)] else [Block(255, 0)] + RangeBlocks(gap - 255, length)
  }

  lemma {:induction false} RangeBlocksCount(gap: nat, length: u48)
    requires 1 <= gap
    ensures |RangeBlocks(gap, length)| == BlocksFor(gap)
  {
    if gap > 255 {
      RangeBlocksCount(gap - 255, length);
      assert gap / 255 == (gap - 255) / 255 + 1 && gap % 255 == (gap - 255) % 255;
    }
  }

  /** The blocks of the ranges below packet number `top`. */
  function AllBlocks(top: nat, ranges: seq<AckRange>): seq<Block>
    requires top <= TWO_48 && Descending(top, ranges)
    decreases |ranges|
  {
    if ranges == [] then []
    else
      RangeBlocks(top - ranges[0].last - 1, ranges[0].last - ranges[0].first + 1)
      + AllBlocks(ranges[0].first, ranges[1..])
  }

  /** How many of the ranges below `top` fit if `n` blocks are in use already and fewer than 255 may be used. */
  function Writable(top: nat, ranges: seq<AckRange>, n: nat): (k: nat)
    requires Descending(top, ranges)
    ensures k <= |ranges|
    decreases |ranges|
  {
    if ranges == [] then 0
    else
      var b := BlocksFor(top - ranges[0].last - 1);
      if n + b < 255 then 1 + Writable(ranges[0].first, ranges[1..], n + b) else 0
  }

  // ----- Blocks as ranges -----

  /**
    The ranges read so far, the last one apart. `inLong` says that the last block had length 0, so
    that the next one continues its gap; `complete` says that the last range has got its length.
   */
  datatype ReadState = ReadState(before: seq<AckRange>, current: AckRange, inLong: bool, complete: bool)

  /** Add one block. Differences wrap around at 2^64. */
  function AddBlock(st: ReadState, b: Block): (r: ReadState) {
    var x := st.current;
    if st.inLong then
      ReadState(
        st.before, AckRange(Sub64(x.first, b.gap + b.length), Sub64(x.last, b.gap)),
        b.length == 0, st.complete || b.length > 0)
    else
      var last := Sub64(Sub64(x.first, b.gap), 1);
      ReadState(
        st.before + [x], AckRange(Add64(Sub64(last, b.length), 1), last),
        b.length == 0, b.length > 0)
  }

  function AddBlocks(st: ReadState, blocks: seq<Block>): (r: ReadState)
    decreases |blocks|
  {
    if blocks == [] then st else AddBlocks(AddBlock(st, blocks[0]), blocks[1..])
  }

  lemma {:induction false} AddBlocksConcat(st: ReadState, a: seq<Block>, c: seq<Block>)
    ensures AddBlocks(st, a + c) == AddBlocks(AddBlocks(st, a), c)
    decreases |a|
  {
    if a == [] {
      assert a + c == c;
    } else {
      assert (a + c)[1..] == a[1..] + c;
      AddBlocksConcat(AddBlock(st, a[0]), a[1..], c);
    }
  }

  /** The blocks that continue a long gap complete the range that the first block began. */
  lemma {:induction false} AddLongGap(before: seq<AckRange>, f: u64, gap: nat, length: u48)
    requires 0 < length && gap + length <= f && 1 <= gap
    ensures AddBlocks(ReadState(before, AckRange(f, f - 1), true, false), RangeBlocks(gap, length))
      == ReadState(before, AckRange(f - gap - length, f - gap - 1), false, true)
    decreases gap
  {
    var blocks := RangeBlocks(gap, length);
    if gap <= 255 {
      assert blocks[1..] == [];
    } else {
      assert blocks[1..] == RangeBlocks(gap - 255, length);
      AddLongGap(before, f - 255, gap - 255, length);
    }
  }

  /** The first block of a range may as well be read as continuing a gap of length 0. */
  lemma {:induction false} AddFirstBlock(st: ReadState, b: Block)
    requires !st.inLong && b.gap + b.length <= st.current.first && b.gap < st.current.first
    ensures AddBlock(st, b)
      == AddBlock(ReadState(st.before + [st.current], AckRange(st.current.first, st.current.first - 1), true, false), b)
  {
  }

  /** The blocks of one range give back the range. */
  lemma {:induction false} AddRange(st: ReadState, gap: nat, length: u48)
    requires !st.inLong && 0 < length && 1 <= gap && gap + length <= st.current.first
    ensures var top := st.current.first;
      AddBlocks(st, RangeBlocks(gap, length))
      == ReadState(st.before + [st.current], AckRange(top - gap - length, top - gap - 1), false, true)
  {
    var f := st.current.first;
    var long := ReadState(st.before + [st.current], AckRange(f, f - 1), true, false);
    AddFirstBlock(st, RangeBlocks(gap, length)[0]);
    SameAfterFirst(st, long, RangeBlocks(gap, length));
    AddLongGap(long.before, f, gap, length);
  }

  lemma {:induction false} SameAfterFirst(st: ReadState, st': ReadState, blocks: seq<Block>)
    requires blocks != [] && AddBlock(st, blocks[0]) == AddBlock(st', blocks[0])
    ensures AddBlocks(st, blocks) == AddBlocks(st', blocks)
  {
  }

  function Ranges(st: ReadState): seq<AckRange> {
    st.before + [st.current]
  }

  /** The blocks of all ranges give back all ranges. */
  lemma {:induction false} AddAllBlocks(st: ReadState, ranges: seq<AckRange>)
    requires !st.inLong && st.current.first < TWO_48 && Descending(st.current.first, ranges)
    ensures var r := AddBlocks(st, AllBlocks(st.current.first, ranges));
      Ranges(r) == Ranges(st) + ranges && r.complete == (st.complete || ranges != [])
    decreases |ranges|
  {
    if ranges != [] {
      var r, rest := ranges[0], ranges[1..];
      var gap, length := st.current.first - r.last - 1, r.last - r.first + 1;
      var st' := ReadState(Ranges(st), r, false, true);
      assert AddBlocks(st, RangeBlocks(gap, length)) == st' by { AddRange(st, gap, length); }
      AddBlocksConcat(st, RangeBlocks(gap, length), AllBlocks(r.first, rest));
      AddAllBlocks(st', rest);
      assert Ranges(st') + rest == Ranges(st) + ranges;
    }
  }

  // ----- Blocks as bytes -----

  function PutBlock(order: Order, width: nat, b: Block): (s: seq<byte>)
    ensures |s| == 1 + width
  {
    [b.gap] + Put(order, b.length, width)
  }

  function PutBlocks(order: Order, width: nat, blocks: seq<Block>): seq<byte> {
    if blocks == [] then [] else PutBlock(order, width, blocks[0]) + PutBlocks(order, width, blocks[1..])
  }

  lemma {:induction false} PutBlocksLength(order: Order, width: nat, blocks: seq<Block>)
    ensures |PutBlocks(order, width, blocks)| == (1 + width) * |blocks|
  {
    if blocks != [] {
      PutBlocksLength(order, width, blocks[1..]);
      assert (1 + width) * |blocks| == (1 + width) + (1 + width) * |blocks[1..]|;
    }
  }

  /** Take one block from the front of the input. */
  function GetBlock(order: Order, width: nat, s: seq<byte>): Option<(Block, seq<byte>)>
    requires width <= 6
  {
    if |s| < 1 + width then None
    else
      LengthFits(order, s[1..], width);
      var (length, rest) := Get(order, s[1..], width).value;
      Some((Block(s[0], length), rest))
  }

  lemma {:induction false} GetPutBlock(order: Order, width: nat, b: Block, s: seq<byte>)
    requires width <= 6 && b.length < Pow256(width)
    ensures GetBlock(order, width, PutBlock(order, width, b) + s) == Some((b, s))
  {
    var t := PutBlock(order, width, b) + s;
    assert t[1..] == Put(order, b.length, width) + s;
    GetPut(order, b.length, width, s);
  }

  /** Take `n` blocks from the front of the input and add them to the ranges read so far. */
  function ReadFrom(order: Order, width: nat, s: seq<byte>, n: nat, st: ReadState): Option<(ReadState, seq<byte>)>
    requires width <= 6
    decreases n
  {
    if n == 0 then Some((st, s))
    else
      match GetBlock(order, width, s)
      case None => None
      case Some((b, rest)) => ReadFrom(order, width, rest, n - 1, AddBlock(st, b))
  }

  /** The lengths are such that `width` bytes can hold them. */
  ghost predicate LengthsFit(blocks: seq<Block>, width: nat) {
    forall b :: b in blocks ==> b.length < Pow256(width)
  }

  lemma {:induction false} LengthFits(order: Order, s: seq<byte>, width: nat)
    requires width <= 6 && Get(order, s, width).Some?
    ensures Get(order, s, width).value.0 < TWO_48
  {
    ValueBound(order, s[..width]);
    EpochDeltas();
    Pow256Monotone(width, 6);
  }

  lemma {:induction false} Pow256Monotone(a: nat, b: nat)
    requires a <= b
    ensures Pow256(a) <= Pow256(b)
    decreases b - a
  {
    if a < b {
      Pow256Monotone(a + 1, b);
    }
  }

  lemma {:induction false} ReadPutBlocks(order: Order, width: nat, blocks: seq<Block>, s: seq<byte>, st: ReadState)
    requires width <= 6 && LengthsFit(blocks, width)
    ensures ReadFrom(order, width, PutBlocks(order, width, blocks) + s, |blocks|, st)
      == Some((AddBlocks(st, blocks), s))
    decreases |blocks|
  {
    var t := PutBlocks(order, width, blocks) + s;
    if blocks == [] {
      assert t == s;
    } else {
      var b, more := blocks[0], PutBlocks(order, width, blocks[1..]) + s;
      assert t == PutBlock(order, width, b) + more by {
        Associate(PutBlock(order, width, b), PutBlocks(order, width, blocks[1..]), s);
      }
      GetPutBlock(order, width, b, more);
      ReadPutBlocks(order, width, blocks[1..], s, AddBlock(st, b));
    }
  }

  // ----- How many blocks are written -----

  /** The number of blocks needed by the ranges that fit, on top of the `n` in use. */
  function WritableBlocks(top: nat, ranges: seq<AckRange>, n: nat): nat
    requires Descending(top, ranges)
    decreases |ranges|
  {
    if ranges == [] then n
    else
      var b := BlocksFor(top - ranges[0].last - 1);
      if n + b < 255 then WritableBlocks(ranges[0].first, ranges[1..], n + b) else n
  }

  lemma {:induction false} DescendingPrefix(top: nat, ranges: seq<AckRange>, k: nat)
    requires Descending(top, ranges) && k <= |ranges|
    ensures Descending(top, ranges[..k])
    decreases |ranges|
  {
    if k > 0 {
      assert ranges[..k][1..] == ranges[1..][..k - 1];
      DescendingPrefix(ranges[0].first, ranges[1..], k - 1);
    }
  }

  /** The blocks that are still to be written when `n` blocks have been. */
  ghost function Remaining(top: nat, ranges: seq<AckRange>, n: nat): seq<Block>
    requires top <= TWO_48 && Descending(top, ranges)
  {
    DescendingPrefix(top, ranges, Writable(top, ranges, n));
    AllBlocks(top, ranges[..Writable(top, ranges, n)])
  }

  lemma {:induction false} RemainingStep(top: nat, ranges: seq<AckRange>, n: nat)
    requires top <= TWO_48 && Descending(top, ranges) && ranges != []
    ensures var b := BlocksFor(top - ranges[0].last - 1);
      var blocks := RangeBlocks(top - ranges[0].last - 1, ranges[0].last - ranges[0].first + 1);
      Remaining(top, ranges, n)
      == if n + b < 255 then blocks + Remaining(ranges[0].first, ranges[1..], n + b) else []
  {
    var b := BlocksFor(top - ranges[0].last - 1);
    if n + b < 255 {
      var k := Writable(ranges[0].first, ranges[1..], n + b);
      DescendingPrefix(top, ranges, k + 1);
      DescendingPrefix(ranges[0].first, ranges[1..], k);
      assert ranges[..k + 1][1..] == ranges[1..][..k];
    }
  }

  /** The blocks of the ranges that fit are as many as were counted, and fewer than 255. */
  lemma {:induction false} RemainingCount(top: nat, ranges: seq<AckRange>, n: nat)
    requires top <= TWO_48 && Descending(top, ranges) && n < 255
    ensures n + |Remaining(top, ranges, n)| == WritableBlocks(top, ranges, n) < 255
    decreases |ranges|
  {
    if ranges != [] {
      var gap := top - ranges[0].last - 1;
      RemainingStep(top, ranges, n);
      if n + BlocksFor(gap) < 255 {
        RemainingCount(ranges[0].first, ranges[1..], n + BlocksFor(gap));
        RangeBlocksCount(gap, ranges[0].last - ranges[0].first + 1);
      }
    }
  }

  // ----- Validation -----

  /** The checks on consecutive ranges, in 64-bit arithmetic. */
  predicate Consecutive(ranges: seq<AckRange>) {
    |ranges| < 2 ||
    (ranges[1].first < ranges[0].first && Add64(ranges[1].last, 1) < ranges[0].first && Consecutive(ranges[1..]))
  }

  /** The result of `validateAckRanges` for a frame whose largest packet number is `largest`. */
  predicate Validate(largest: nat, ranges: seq<AckRange>) {
    ranges == [] ||
    (&& |ranges| >= 2 && ranges[0].last == largest
     && (forall x :: x in ranges ==> x.first <= x.last) && Consecutive(ranges))
  }

  /** The length of a range, in 64-bit arithmetic. */
  function Length(x: AckRange): u64 {
    Sub64(Add64(x.last, 1), x.first)
  }

  ghost predicate LengthOk(x: AckRange) {
    0 < Length(x) < TWO_48
  }

  ghost predicate ReadOk(st: ReadState) {
    && (forall x :: x in st.before ==> LengthOk(x))
    && (if st.inLong then !st.complete && Length(st.current) == 0 else LengthOk(st.current))
  }

  lemma {:induction false} AddBlockOk(st: ReadState, b: Block)
    requires ReadOk(st)
    ensures ReadOk(AddBlock(st, b)) && AddBlock(st, b).complete == !AddBlock(st, b).inLong
  {
  }

  /** Reading blocks keeps the lengths in order and never changes the first range. */
  lemma {:induction false} ReadFromOk(order: Order, width: nat, s: seq<byte>, n: nat, st: ReadState, x: AckRange)
    requires width <= 6 && ReadFrom(order, width, s, n, st).Some?
    requires if st.before == [] then !st.inLong && st.current == x else st.before[0] == x
    ensures var r := ReadFrom(order, width, s, n, st).value.0;
      && (if r.before == [] then r.current == x && n == 0 else r.before[0] == x)
      && (ReadOk(st) ==> ReadOk(r) && (n > 0 ==> r.complete == !r.inLong))
    decreases n
  {
    if n > 0 {
      var (b, rest) := GetBlock(order, width, s).value;
      if ReadOk(st) {
        AddBlockOk(st, b);
      }
      ReadFromOk(order, width, rest, n - 1, AddBlock(st, b), x);
    }
  }

  /** Ranges that pass the 64-bit checks descend in true arithmetic: none of them has wrapped around. */
  lemma {:induction false} ConsecutiveDescends(x: AckRange, ranges: seq<AckRange>)
    requires x.first <= TWO_48 && Consecutive([x] + ranges)
    requires forall y :: y in ranges ==> LengthOk(y) && y.first <= y.last
    ensures Descending(x.first, ranges)
    decreases |ranges|
  {
    if ranges != [] {
      var all := [x] + ranges;
      assert all[1] == ranges[0] && all[1..] == ranges && ranges == [ranges[0]] + ranges[1..];
      ConsecutiveDescends(ranges[0], ranges[1..]);
    }
  }

  lemma {:induction false} DescendingConsecutive(x: AckRange, ranges: seq<AckRange>)
    requires x.first <= TWO_48 && Descending(x.first, ranges)
    ensures Consecutive([x] + ranges) && forall y :: y in ranges ==> y.first <= y.last
    decreases |ranges|
  {
    if ranges != [] {
      var all := [x] + ranges;
      assert all[1] == ranges[0] && all[1..] == ranges && ranges == [ranges[0]] + ranges[1..];
      DescendingConsecutive(ranges[0], ranges[1..]);
    }
  }

  // ----- The loops of the source -----

  /** Count the blocks that fit, range by range. */
  method CountBlocks(ranges: seq<AckRange>) returns (n: nat)
    requires ranges != [] && ranges[0].first <= TWO_48 && Descending(ranges[0].first, ranges[1..])
    ensures n == WritableBlocks(ranges[0].first, ranges[1..], 0)
  {
    n := 0;
    var top: nat, rest := ranges[0].first, ranges[1..];
    while rest != []
      invariant Descending(top, rest)
      invariant WritableBlocks(ranges[0].first, ranges[1..], 0) == WritableBlocks(top, rest, n)
      decreases |rest|
    {
      var gap := top - rest[0].last - 1;
      var rangeLength := 1 + gap / 255;
      if gap % 255 == 0 {
        rangeLength := rangeLength - 1;
      }
      if n + rangeLength >= 255 {
        break;
      }
      n, top, rest := n + rangeLength, rest[0].first, rest[1..];
    }
  }

  lemma {:induction false} LastGapByte(gap: nat)
    requires 1 <= gap
    ensures gap - 255 * (BlocksFor(gap) - 1) == 1 + (gap - 1) % 255
  {
  }

  lemma {:induction false} RangeBlocksSplit(gap: nat, length: u48, i: nat)
    requires 1 <= gap && i < BlocksFor(gap)
    ensures 1 <= gap - 255 * i
    ensures i + 1 < BlocksFor(gap) ==> gap - 255 * i > 255
    ensures i + 1 == BlocksFor(gap) ==> gap - 255 * i <= 255
  {
  }

  /** Write one range: if the gap is long, a block with gap 255 and length 0 for each full part. */
  method WriteRange(order: Order, width: nat, gap: nat, length: u48) returns (s: seq<byte>)
    requires 1 <= gap
    ensures s == PutBlocks(order, width, RangeBlocks(gap, length))
  {
    var num := gap / 255 + 1;
    if gap % 255 == 0 {
      num := num - 1;
    }
    s := [];
    ghost var todo := RangeBlocks(gap, length);
    for i := 0 to num
      invariant todo == if i < num then RangeBlocks(gap - 255 * i, length) else []
      invariant s + PutBlocks(order, width, todo) == PutBlocks(order, width, RangeBlocks(gap, length))
    {
      RangeBlocksSplit(gap, length, i);
      LastGapByte(gap);
      var b := if i == num - 1 then Block(1 + (gap - 1) % 255, length) else Block(255, 0);
      assert todo[0] == b;
      PutBlocksFirst(order, width, todo, s);
      s := s + PutBlock(order, width, b);
      todo := todo[1..];
    }
  }

  lemma {:induction false} PutBlocksFirst(order: Order, width: nat, blocks: seq<Block>, s: seq<byte>)
    requires blocks != []
    ensures s + PutBlocks(order, width, blocks)
      == s + PutBlock(order, width, blocks[0]) + PutBlocks(order, width, blocks[1..])
  {
  }

  /** `n` blocks, `done`, have been written out of `all`; the ranges `rest` below `top` are left. */
  ghost predicate Writing(all: seq<Block>, done: seq<Block>, top: nat, rest: seq<AckRange>, n: nat, numBlocks: nat) {
    && top <= TWO_48 && Descending(top, rest)
    && numBlocks == WritableBlocks(top, rest, n) < 255
    && done + Remaining(top, rest, n) == all
  }

  lemma {:induction false} WritingStep(
    all: seq<Block>, done: seq<Block>, top: nat, rest: seq<AckRange>, n: nat, numBlocks: nat,
    top': nat, rest': seq<AckRange>, n': nat, blocks: seq<Block>)
    requires Writing(all, done, top, rest, n, numBlocks) && rest != [] && n < 255
    requires top' == rest[0].first && rest' == rest[1..] && n' == n + BlocksFor(top - rest[0].last - 1)
    requires blocks == RangeBlocks(top - rest[0].last - 1, rest[0].last - rest[0].first + 1)
    ensures n' >= 255 ==> numBlocks == n
    ensures n' < 255 ==>
      && Writing(all, done + blocks, top', rest', n', numBlocks)
      && n < n' <= numBlocks && (n' == numBlocks ==> done + blocks == all)
  {
    RemainingStep(top, rest, n);
    RangeBlocksCount(top - rest[0].last - 1, rest[0].last - rest[0].first + 1);
    if n' < 255 {
      RemainingCount(top', rest', n');
      assert done + (blocks + Remaining(top', rest', n')) == done + blocks + Remaining(top', rest', n');
    }
  }

  lemma {:induction false} PutBlocksConcat(order: Order, width: nat, a: seq<Block>, c: seq<Block>)
    ensures PutBlocks(order, width, a + c) == PutBlocks(order, width, a) + PutBlocks(order, width, c)
  {
    if a == [] {
      assert a + c == c;
    } else {
      assert (a + c)[1..] == a[1..] + c;
      PutBlocksConcat(order, width, a[1..], c);
    }
  }

  /**
    Write ranges until the announced number of blocks is reached. `ok` says that it was reached exactly,
    which fails only if the first range alone needs too many blocks.
   */
  method WriteRanges(order: Order, width: nat, ranges: seq<AckRange>, numBlocks: nat) returns (s: seq<byte>, ok: bool)
    requires ranges != [] && ranges[0].first <= TWO_48 && Descending(ranges[0].first, ranges[1..])
    requires numBlocks == WritableBlocks(ranges[0].first, ranges[1..], 0)
    ensures ok <==> (|ranges| == 1 || numBlocks > 0)
    ensures ok ==> s == PutBlocks(order, width, Remaining(ranges[0].first, ranges[1..], 0))
  {
    var top: nat, rest, written: nat := ranges[0].first, ranges[1..], 0;
    s := [];
    ghost var all, done := Remaining(top, rest, 0), [];
    RemainingCount(top, rest, 0);
    while rest != []
      invariant if written == 0 then top == ranges[0].first && rest == ranges[1..] else written < numBlocks
      invariant Writing(all, done, top, rest, written, numBlocks) && s == PutBlocks(order, width, done)
      decreases |rest|
    {
      var gap, length := top - rest[0].last - 1, rest[0].last - rest[0].first + 1;
      ghost var top0, rest0, n0, blocks := top, rest, written, RangeBlocks(gap, length);
      var bytes := WriteRange(order, width, gap, length);
      written, top, rest := written + BlocksFor(gap), rest[0].first, rest[1..];
      WritingStep(all, done, top0, rest0, n0, numBlocks, top, rest, written, blocks);
      PutBlocksConcat(order, width, done, blocks);
      s, done := s + bytes, done + blocks;
      if written >= numBlocks {
        break;
      }
    }
    ok := written == numBlocks;
    assert ok ==> done == all;
  }

  /** Read `n` blocks one by one, extending or continuing the list of ranges with each. */
  method ReadBlocks(order: Order, width: nat, s: seq<byte>, n: nat, init: ReadState)
    returns (r: Option<(ReadState, seq<byte>)>)
    requires width <= 6
    ensures r == ReadFrom(order, width, s, n, init)
  {
    var st, rest := init, s;
    for i := 0 to n
      invariant ReadFrom(order, width, s, n, init) == ReadFrom(order, width, rest, n - i, st)
    {
      var b := GetBlock(order, width, rest);
      if b.None? {
        return None;
      }
      st, rest := AddBlock(st, b.value.0), b.value.1;
    }
    r := Some((st, rest));
  }

  /** The check of `validateAckRanges`, range by range and then pair by pair. */
  method CheckRanges(largest: nat, ranges: seq<AckRange>) returns (ok: bool)
    ensures ok == Validate(largest, ranges)
  {
    if ranges == [] {
      return true;
    }
    if |ranges| == 1 || ranges[0].last != largest {
      return false;
    }
    for i := 0 to |ranges|
      invariant forall x :: x in ranges[..i] ==> x.first <= x.last
    {
      if ranges[i].first > ranges[i].last {
        assert ranges[i] in ranges;
        return false;
      }
      assert ranges[..i + 1] == ranges[..i] + [ranges[i]];
    }
    assert ranges[..|ranges|] == ranges;
    var rest := ranges;
    while |rest| > 1
      invariant Consecutive(ranges) == Consecutive(rest)
      decreases |rest|
    {
      if rest[0].first <= rest[1].first || rest[0].first <= Add64(rest[1].last, 1) {
        return false;
      }
      rest := rest[1..];
    }
    ok := true;
  }
}
