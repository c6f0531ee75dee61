/**
  The list of packets a path is waiting to hear about (quic-go/ackhandler/packet.go,
  quic-go/ackhandler/retransmittable.go), and how packets are picked out of it when an acknowledgement
  arrives (quic-go/ackhandler/sent_packet_handler.go).
 */
module SentPackets {
  import opened Basics
  import opened AckRanges
  import opened AckFrames

  datatype FrameKind =
    | Ack | StopWaiting
    | Stream | RstStream | WindowUpdate | Blocked | Ping | Goaway | AddAddress | Paths
    | ClosePath | ConnectionClose

  predicate IsFrameRetransmittable(f: FrameKind) {
    f != StopWaiting && f != Ack
  }

  function Strip(frames: seq<FrameKind>): seq<FrameKind> {
    if frames == [] then []
    else (if IsFrameRetransmittable(frames[0]) then [frames[0]] else []) + Strip(frames[1..])
  }

  datatype Packet = Packet(number: nat, frames: seq<FrameKind>, length: nat, sendTime: int) {
    /** Closing frames do not keep the retransmission alarm going, although they are tracked. */
    predicate IsRetransmittable() {
      exists f :: f in frames && f !in {Ack, StopWaiting, ClosePath, ConnectionClose}
    }
  }

  function Bytes(ps: seq<Packet>): nat {
    if ps == [] then 0 else ps[0].length + Bytes(ps[1..])
  }

  /** How often the packet occurs. */
  function Count(ps: seq<Packet>, p: Packet): nat {
    if ps == [] then 0 else (if ps[0] == p then 1 else 0) + Count(ps[1..], p)
  }

  /** The numbers increase strictly, above `low` and up to `high`. */
  ghost predicate Numbered(low: nat, ps: seq<Packet>, high: nat)
    decreases |ps|
  {
    if ps == [] then low <= high else low < ps[0].number && Numbered(ps[0].number, ps[1..], high)
  }

  lemma {:induction false} NumberedBounds(low: nat, ps: seq<Packet>, high: nat)
    requires Numbered(low, ps, high)
    ensures low <= high
    ensures forall p :: p in ps ==> low < p.number <= high
    decreases |ps|
  {
    if ps != [] {
      NumberedBounds(ps[0].number, ps[1..], high);
      assert forall p :: p in ps ==> p == ps[0] || p in ps[1..];
    }
  }

  lemma {:induction false} NumberedWider(low: nat, ps: seq<Packet>, high: nat, low': nat, high': nat)
    requires Numbered(low, ps, high) && low' <= low && high <= high'
    ensures Numbered(low', ps, high')
    decreases |ps|
  {
    if ps != [] {
      NumberedWider(ps[0].number, ps[1..], high, ps[0].number, high');
    }
  }

  lemma {:induction false} NumberedPush(low: nat, ps: seq<Packet>, high: nat, p: Packet)
    requires Numbered(low, ps, high) && high < p.number
    ensures Numbered(low, ps + [p], p.number)
    decreases |ps|
  {
    if ps != [] {
      NumberedPush(ps[0].number, ps[1..], high, p);
      assert (ps + [p])[1..] == ps[1..] + [p];
    }
  }

  lemma {:induction false} BytesAppend(a: seq<Packet>, b: seq<Packet>)
    ensures Bytes(a + b) == Bytes(a) + Bytes(b)
  {
    if a == [] {
      assert a + b == b;
    } else {
      BytesAppend(a[1..], b);
      assert (a + b)[1..] == a[1..] + b;
    }
  }

  lemma {:induction false} CountAppend(a: seq<Packet>, b: seq<Packet>, p: Packet)
    ensures Count(a + b, p) == Count(a, p) + Count(b, p)
  {
    if a == [] {
      assert a + b == b;
    } else {
      CountAppend(a[1..], b, p);
      assert (a + b)[1..] == a[1..] + b;
    }
  }

  lemma {:induction false} CountPositive(ps: seq<Packet>, p: Packet)
    ensures p in ps <==> Count(ps, p) > 0
  {
    if ps != [] {
      CountPositive(ps[1..], p);
    }
  }

  lemma {:induction false} NumberedOnce(low: nat, ps: seq<Packet>, high: nat, p: Packet)
    requires Numbered(low, ps, high)
    ensures Count(ps, p) <= 1
    decreases |ps|
  {
    if ps != [] {
      NumberedOnce(ps[0].number, ps[1..], high, p);
      NumberedBounds(ps[0].number, ps[1..], high);
      CountPositive(ps[1..], p);
    }
  }

  // ----- Taking packets out of the list -----

  /** `chosen` is found in `ps` in the same order. */
  ghost predicate Among(chosen: seq<Packet>, ps: seq<Packet>) {
    chosen == [] ||
    (ps != [] && if ps[0] == chosen[0] then Among(chosen[1..], ps[1..]) else Among(chosen, ps[1..]))
  }

  /** What is left when the chosen packets leave. */
  function Leave(ps: seq<Packet>, chosen: seq<Packet>): seq<Packet> {
    if ps == [] then []
    else if chosen != [] && ps[0] == chosen[0] then Leave(ps[1..], chosen[1..])
    else [ps[0]] + Leave(ps[1..], chosen)
  }

  /** Removing one list element. */
  function Without(ps: seq<Packet>, number: nat): seq<Packet> {
    if ps == [] then []
    else if ps[0].number == number then Without(ps[1..], number)
    else [ps[0]] + Without(ps[1..], number)
  }

  lemma {:induction false} LeaveNone(ps: seq<Packet>)
    ensures Leave(ps, []) == ps
  {
    if ps != [] {
      LeaveNone(ps[1..]);
    }
  }

  lemma {:induction false} AmongNumbered(low: nat, ps: seq<Packet>, high: nat, chosen: seq<Packet>)
    requires Numbered(low, ps, high) && Among(chosen, ps)
    ensures Numbered(low, chosen, high)
    decreases |ps|
  {
    NumberedBounds(low, ps, high);
    if chosen != [] {
      if ps[0] == chosen[0] {
        AmongNumbered(ps[0].number, ps[1..], high, chosen[1..]);
      } else {
        AmongNumbered(ps[0].number, ps[1..], high, chosen);
        NumberedWider(ps[0].number, chosen, high, low, high);
      }
    }
  }

  lemma {:induction false} LeaveNumbered(low: nat, ps: seq<Packet>, high: nat, chosen: seq<Packet>)
    requires Numbered(low, ps, high)
    ensures Numbered(low, Leave(ps, chosen), high)
    decreases |ps|
  {
    if ps != [] {
      if chosen != [] && ps[0] == chosen[0] {
        LeaveNumbered(ps[0].number, ps[1..], high, chosen[1..]);
        NumberedWider(ps[0].number, Leave(ps[1..], chosen[1..]), high, low, high);
      } else {
        LeaveNumbered(ps[0].number, ps[1..], high, chosen);
        var left := Leave(ps[1..], chosen);
        assert ([ps[0]] + left)[1..] == left;
      }
    }
  }

  /** Nothing is lost and nothing appears: the list splits into what leaves and what stays. */
  lemma {:induction false} LeaveSplits(ps: seq<Packet>, chosen: seq<Packet>, p: Packet)
    requires Among(chosen, ps)
    ensures Count(ps, p) == Count(chosen, p) + Count(Leave(ps, chosen), p)
    ensures Bytes(ps) == Bytes(chosen) + Bytes(Leave(ps, chosen))
  {
    if ps != [] {
      if chosen != [] && ps[0] == chosen[0] {
        LeaveSplits(ps[1..], chosen[1..], p);
      } else {
        LeaveSplits(ps[1..], chosen, p);
        var left := Leave(ps[1..], chosen);
        assert ([ps[0]] + left)[1..] == left;
      }
    }
  }

  lemma {:induction false} WithoutAbsent(low: nat, ps: seq<Packet>, high: nat, number: nat)
    requires Numbered(low, ps, high) && number <= low
    ensures Without(ps, number) == ps
    decreases |ps|
  {
    if ps != [] {
      WithoutAbsent(ps[0].number, ps[1..], high, number);
    }
  }

  /** Removing the first of the chosen elements and then the others is taking all of them out. */
  lemma {:induction false} LeaveFirst(low: nat, ps: seq<Packet>, high: nat, chosen: seq<Packet>)
    requires Numbered(low, ps, high) && Among(chosen, ps) && chosen != []
    ensures var ps' := Without(ps, chosen[0].number);
      && Among(chosen[1..], ps')
      && Leave(ps', chosen[1..]) == Leave(ps, chosen)
      && Numbered(low, ps', high)
      && Bytes(ps) == chosen[0].length + Bytes(ps')
    decreases |ps|
  {
    if ps[0] == chosen[0] {
      WithoutAbsent(ps[0].number, ps[1..], high, ps[0].number);
      NumberedWider(ps[0].number, ps[1..], high, low, high);
    } else {
      AmongNumbered(ps[0].number, ps[1..], high, chosen);
      LeaveFirst(ps[0].number, ps[1..], high, chosen);
      var rest := Without(ps[1..], chosen[0].number);
      assert ([ps[0]] + rest)[1..] == rest;
      if chosen[1..] != [] {
        AmongNumbered(ps[0].number, rest, high, chosen[1..]);
        assert chosen[1..][0].number > ps[0].number;
      }
    }
  }

  // ----- The packets an acknowledgement settles -----

  /** The tracked packets that the frame acknowledges, by the simple test on each of them. */
  function Acked(ps: seq<Packet>, f: AckFrame): seq<Packet> {
    if ps == [] then []
    else (if AcksPacket(f, ps[0].number) then [ps[0]] else []) + Acked(ps[1..], f)
  }

  lemma {:induction false} AckedAmong(ps: seq<Packet>, f: AckFrame)
    ensures Among(Acked(ps, f), ps)
    ensures forall p :: p in Acked(ps, f) <==> p in ps && AcksPacket(f, p.number)
  {
    if ps != [] {
      AckedAmong(ps[1..], f);
      var tail := Acked(ps[1..], f);
      assert ([ps[0]] + tail)[1..] == tail;
      assert ps == [ps[0]] + ps[1..];
      if !AcksPacket(f, ps[0].number) {
        assert [] + tail == tail;
        assert tail != [] ==> tail[0] in tail;
      }
    }
  }

  /** Exactly the acknowledged packets leave: what stays is every packet the frame does not cover. */
  lemma {:induction false} UnackedStay(low: nat, ps: seq<Packet>, high: nat, f: AckFrame)
    requires Numbered(low, ps, high)
    ensures forall p :: p in Leave(ps, Acked(ps, f)) <==> p in ps && !AcksPacket(f, p.number)
    decreases |ps|
  {
    if ps != [] {
      UnackedStay(ps[0].number, ps[1..], high, f);
      var tail := Acked(ps[1..], f);
      assert ps == [ps[0]] + ps[1..];
      if AcksPacket(f, ps[0].number) {
        assert ([ps[0]] + tail)[1..] == tail;
      } else {
        assert [] + tail == tail;
        AckedAmong(ps[1..], f);
        assert tail != [] ==> tail[0] in tail;
      }
    }
  }

  lemma {:induction false} AckedNoneAbove(low: nat, ps: seq<Packet>, high: nat, f: AckFrame)
    requires Numbered(low, ps, high) && f.largest <= low
    ensures Acked(ps, f) == []
    decreases |ps|
  {
    if ps != [] {
      AckedNoneAbove(ps[0].number, ps[1..], high, f);
    }
  }

  /** Between the range below and the current one, the current range alone decides. */
  lemma {:induction false} CurrentRangeDecides(top: nat, ranges: seq<AckRange>, k: nat, p: nat)
    requires Descending(top, ranges) && k < |ranges|
    requires k + 1 < |ranges| ==> ranges[k + 1].last < p
    requires k == 0 || p <= ranges[k].last
    ensures Contains(ranges, p) <==> ranges[k].first <= p <= ranges[k].last
    ensures k > 0 ==> p < ranges[0].first
  {
    var rest := ranges[1..];
    if k == 0 {
      if Contains(rest, p) {
        assert rest == [rest[0]] + rest[1..];
        ContainsBounds(rest[0], rest[1..], p);
      }
    } else {
      CurrentRangeDecides(ranges[0].first, rest, k - 1, p);
    }
  }

  /** Where the walk over the ranges stands: every range already left behind ends below `p`. */
  ghost predicate Passed(ranges: seq<AckRange>, index: nat, p: nat) {
    index < |ranges| && (index > 0 ==> ranges[|ranges| - index].last < p)
  }

  /**
    Advance over the ranges, from the lowest up, to the one that decides about a packet within the bounds of
    the frame. The verdict is the simple test; `None`, the answer for a range that does not fit, never occurs.
   */
  method Decide(f: AckFrame, start: nat, p: nat) returns (index: nat, verdict: Option<bool>)
    requires Sound(f) && f.ranges != [] && f.lowest <= p <= f.largest
    requires Passed(f.ranges, start, p)
    ensures Passed(f.ranges, index, p)
    ensures verdict == Some(AcksPacket(f, p))
  {
    index := start;
    var current := f.ranges[|f.ranges| - 1 - index];
    while current.last < p && index < |f.ranges| - 1
      invariant Passed(f.ranges, index, p) && current == f.ranges[|f.ranges| - 1 - index]
      decreases |f.ranges| - index
    {
      index := index + 1;
      current := f.ranges[|f.ranges| - 1 - index];
    }
    CurrentRangeDecides(f.largest + 2, f.ranges, |f.ranges| - 1 - index, p);
    verdict := if p < current.first then Some(false) else if p > current.last then None else Some(true);
  }

  /**
    The single pass over tracked packets and ranges, both from the lowest number up. It finds what the simple
    test on every packet finds, and the error for a range that does not fit is never returned.
   */
  method DetermineNewlyAcked(ps: seq<Packet>, f: AckFrame, ghost low: nat, ghost high: nat)
    returns (r: Option<seq<Packet>>)
    requires Numbered(low, ps, high) && Sound(f)
    ensures r == Some(Acked(ps, f))
  {
    var acked: seq<Packet> := [];
    var index: nat := 0;
    var rest := ps;
    ghost var seen := low;
    while rest != [] && rest[0].number <= f.largest
      invariant Numbered(seen, rest, high)
      invariant acked + Acked(rest, f) == Acked(ps, f)
      invariant f.ranges != [] ==> Passed(f.ranges, index, seen)
      decreases |rest|
    {
      var p := rest[0];
      var covered := f.lowest <= p.number;
      if covered && f.ranges != [] {
        var verdict: Option<bool>;
        index, verdict := Decide(f, index, p.number);
        if verdict.None? {
          return None;
        }
        covered := verdict.value;
      }
      AckedStep(acked, rest, f);
      acked := if covered then acked + [p] else acked;
      seen := p.number;
      rest := rest[1..];
    }
    if rest != [] {
      AckedNoneAbove(f.largest, rest, high, f);
    }
    assert acked + [] == acked;
    r := Some(acked);
  }

  lemma {:induction false} AckedStep(acked: seq<Packet>, rest: seq<Packet>, f: AckFrame)
    requires rest != []
    ensures acked + Acked(rest, f)
      == (if AcksPacket(f, rest[0].number) then acked + [rest[0]] else acked) + Acked(rest[1..], f)
  {
  }
}
