/**
  Truncation of packet numbers in the public header and their reconstruction
  (quic-go/internal/protocol/packet_number.go). Packet numbers are `uint64`; every sum and difference
  wraps around at 2^64 as in the source.
 */
module PacketNumber {
  import opened Basics
  import opened ByteOrder

  /** The lengths in bytes that a packet number can have on the wire. */
  type Length = n: int | n in {1, 2, 4, 6} witness 1

  /** 2^(8 * len), the distance between two packet numbers with the same truncation. */
  function EpochDelta(len: Length): (d: nat)
    ensures 0 < d <= 0x1_0000_0000_0000
  {
    EpochDeltas();
    Pow256(len)
  }

  lemma {:induction false} EpochDeltas()
    ensures Pow256(1) == 0x100 && Pow256(2) == 0x1_0000 && Pow256(4) == 0x1_0000_0000 && Pow256(6) == 0x1_0000_0000_0000
  {
    assert Pow256(3) == 0x100_0000 && Pow256(5) == 0x100_0000_0000;
  }

  type u64 = x: int | 0 <= x < TWO_64

  function Add64(a: u64, b: u64): u64 {
    if a + b < TWO_64 then a + b else a + b - TWO_64
  }

  function Sub64(a: u64, b: u64): u64 {
    if a < b then a - b + TWO_64 else a - b
  }

  function Delta(a: nat, b: nat): nat {
    if a < b then b - a else a - b
  }

  function ClosestTo(target: nat, a: u64, b: u64): u64 {
    if Delta(target, a) < Delta(target, b) then a else b
  }

  /** The low bits of a number: what remains after taking away `d` as often as possible. */
  function Truncate(m: nat, d: nat): (r: nat)
    requires d > 0
    ensures r < d
    decreases m
  {
    if m < d then m else Truncate(m - d, d)
  }

  lemma {:induction false} TruncateIsMod(m: nat, d: nat)
    requires d > 0
    ensures Truncate(m, d) == m % d
    decreases m
  {
    if m >= d {
      TruncateIsMod(m - d, d);
      ModMinus(m, d);
    }
  }

  lemma {:induction false} ModMinus(m: nat, d: nat)
    requires 0 < d <= m
    ensures (m - d) % d == m % d
  {
    var q, q' := m / d, (m - d) / d;
    var r, r' := m % d, (m - d) % d;
    assert m == q * d + r && m - d == q' * d + r';
    assert (q - q' - 1) * d == r' - r;
    MulBounds(q - q' - 1, d);
  }

  lemma {:induction false} MulBounds(x: int, d: nat)
    requires d > 0
    ensures x >= 1 ==> x * d >= d
    ensures x <= -1 ==> x * d <= 0 - d
  {
  }

  /** The packet number closest to the one after `last` among those with truncation `wire`. */
  function Infer(len: Length, last: u64, wire: u64): u64 {
    InferWith(EpochDelta(len), last, wire)
  }

  function InferWith(d: u64, last: u64, wire: u64): u64
    requires d > 0
  {
    TruncateBound(last, d);
    InferInEpoch(d, last - Truncate(last, d), last, wire)
  }

  function InferInEpoch(d: u64, epoch: u64, last: u64, wire: u64): u64 {
    var prevEpochBegin := Sub64(epoch, d);
    var nextEpochBegin := Add64(epoch, d);
    var target := Add64(last, 1);
    ClosestTo(
      target,
      Add64(epoch, wire),
      ClosestTo(target, Add64(prevEpochBegin, wire), Add64(nextEpochBegin, wire)))
  }

  function LengthForPublicHeader(packetNumber: u64, leastUnacked: u64): (len: Length) {
    var diff := Sub64(packetNumber, leastUnacked);
    if diff < 0x8000 then 2 else if diff < 0x8000_0000 then 4 else 6
  }

  /** The shortest length that holds the whole packet number, six bytes being the longest there is. */
  function MinLength(packetNumber: nat): (len: Length)
    ensures packetNumber < 0x1_0000_0000_0000 ==> packetNumber < EpochDelta(len)
  {
    EpochDeltas();
    if packetNumber < 0x100 then 1
    else if packetNumber < 0x1_0000 then 2
    else if packetNumber < 0x1_0000_0000 then 4
    else 6
  }

  lemma {:induction false} TruncateBound(m: nat, d: nat)
    requires d > 0
    ensures Truncate(m, d) <= m
    ensures m >= d ==> Truncate(m, d) <= m - d
    decreases m
  {
    if m >= d {
      TruncateBound(m - d, d);
    }
  }

  /** An epoch begins at a number that truncates to 0. */
  lemma {:induction false} EpochAligned(last: nat, d: nat)
    requires d > 0
    ensures Truncate(last, d) <= last && Truncate(last - Truncate(last, d), d) == 0
    decreases last
  {
    TruncateBound(last, d);
    if last >= d {
      EpochAligned(last - d, d);
    }
  }

  lemma {:induction false} TruncateOffset(epoch: nat, d: nat, wire: nat)
    requires wire < d && Truncate(epoch, d) == 0
    ensures Truncate(epoch + wire, d) == wire
    ensures epoch < d ==> epoch == 0
    decreases epoch
  {
    if epoch >= d {
      TruncateOffset(epoch - d, d, wire);
    }
  }

  /** Where a number with truncation `wire` can lie relative to an epoch. */
  lemma {:induction false} SameTruncation(m: nat, epoch: nat, d: nat, wire: nat)
    requires d > 0 && Truncate(m, d) == wire && Truncate(epoch, d) == 0
    ensures m == epoch + wire || epoch + d + wire <= m || (d <= epoch && m <= epoch + wire - d)
    decreases m
  {
    TruncateBound(m, d);
    if m >= d && epoch >= d {
      SameTruncation(m - d, epoch - d, d, wire);
    }
  }

  /** Two numbers with the same truncation that are less than an epoch apart are equal. */
  lemma {:induction false} CloseNumbersEqual(a: nat, b: nat, d: nat)
    requires d > 0 && Truncate(a, d) == Truncate(b, d) && Delta(a, b) < d
    ensures a == b
    decreases a
  {
    TruncateBound(a, d);
    TruncateBound(b, d);
    if a >= d && b >= d {
      CloseNumbersEqual(a - d, b - d, d);
    }
  }

  /**
    The number inferred has the given truncation and no number with that truncation is closer to the
    packet number expected next. In the first epoch, where the candidate below wraps around to a huge
    number, that candidate is never chosen.
   */
  lemma {:induction false} InferClosest(d: nat, last: nat, wire: nat, m: nat)
    requires last < 0x8000_0000_0000_0000 && wire < d <= 0x1_0000_0000_0000
    requires Truncate(m, d) == wire
    ensures Truncate(InferWith(d, last, wire), d) == wire
    ensures Delta(last + 1, InferWith(d, last, wire)) <= Delta(last + 1, m)
  {
    EpochAligned(last, d);
    InferInEpochClosest(d, last - Truncate(last, d), last, wire, m);
  }

  lemma {:induction false} InferInEpochClosest(d: nat, epoch: nat, last: nat, wire: nat, m: nat)
    requires epoch <= last < epoch + d && wire < d <= 0x1_0000_0000_0000 && last < 0x8000_0000_0000_0000
    requires Truncate(m, d) == wire && Truncate(epoch, d) == 0
    ensures Truncate(InferInEpoch(d, epoch, last, wire), d) == wire
    ensures Delta(last + 1, InferInEpoch(d, epoch, last, wire)) <= Delta(last + 1, m)
  {
    SameTruncation(m, epoch, d, wire);
    TruncateOffset(epoch, d, wire);
    ClosestOfThree(last, epoch, d, wire, m);
    CandidateTruncation(InferInEpoch(d, epoch, last, wire), epoch, d, wire);
  }

  lemma {:induction false} CandidateTruncation(r: nat, epoch: nat, d: nat, wire: nat)
    requires wire < d && Truncate(epoch, d) == 0
    requires r == epoch + wire || r == epoch + d + wire || (d <= epoch && r == epoch - d + wire)
    ensures Truncate(r, d) == wire
  {
    var base := if r == epoch + wire then epoch else if r == epoch + d + wire then epoch + d else epoch - d;
    TruncateOffset(base, d, wire);
  }

  lemma {:induction false} ClosestOfThree(last: nat, epoch: nat, d: nat, wire: nat, m: nat)
    requires epoch <= last < epoch + d && wire < d <= 0x1_0000_0000_0000 && last < 0x8000_0000_0000_0000
    requires m == epoch + wire || epoch + d + wire <= m || (d <= epoch && m <= epoch + wire - d)
    requires epoch < d ==> epoch == 0
    ensures var r := InferInEpoch(d, epoch, last, wire);
      && Delta(last + 1, r) <= Delta(last + 1, m)
      && (r == epoch + wire || r == epoch + d + wire || (d <= epoch && r == epoch - d + wire))
  {
  }

  /**
    The receiver recovers the packet number from the length that the sender chose, if the sender's
    least unacked packet is not beyond what the receiver expects next, and the packet is late by less
    than half an epoch. With six bytes, fewer than 2^47 packets may be outstanding.
   */
  lemma {:induction false} InferInvertsTruncation(packetNumber: nat, leastUnacked: nat, last: nat)
    requires leastUnacked <= packetNumber < 0x8000_0000_0000_0000 && last < 0x8000_0000_0000_0000
    requires leastUnacked <= last + 1
    requires packetNumber - leastUnacked < 0x8000_0000_0000
    requires var d := EpochDelta(LengthForPublicHeader(packetNumber, leastUnacked));
      last + 1 - packetNumber < d / 2
    ensures var len := LengthForPublicHeader(packetNumber, leastUnacked);
      Infer(len, last, Truncate(packetNumber, EpochDelta(len))) == packetNumber
  {
    var d := EpochDelta(LengthForPublicHeader(packetNumber, leastUnacked));
    NearEnough(packetNumber, leastUnacked, last, d);
    InferNear(packetNumber, last, d);
  }

  lemma {:induction false} NearEnough(packetNumber: nat, leastUnacked: nat, last: nat, d: nat)
    requires leastUnacked <= packetNumber < 0x8000_0000_0000_0000 && last < 0x8000_0000_0000_0000
    requires leastUnacked <= last + 1 && packetNumber - leastUnacked < 0x8000_0000_0000
    requires d == EpochDelta(LengthForPublicHeader(packetNumber, leastUnacked)) && last + 1 - packetNumber < d / 2
    ensures 0 < d <= 0x1_0000_0000_0000 && Delta(last + 1, packetNumber) < d / 2
  {
    EpochDeltas();
  }

  /** A number that is less than half an epoch from the one expected next is recovered. */
  lemma {:induction false} InferNear(packetNumber: nat, last: nat, d: nat)
    requires packetNumber < 0x8000_0000_0000_0000 && last < 0x8000_0000_0000_0000 && 0 < d <= 0x1_0000_0000_0000
    requires Delta(last + 1, packetNumber) < d / 2
    ensures InferWith(d, last, Truncate(packetNumber, d)) == packetNumber
  {
    var wire := Truncate(packetNumber, d);
    InferClosest(d, last, wire, packetNumber);
    CloseNumbersEqual(InferWith(d, last, wire), packetNumber, d);
  }
}
