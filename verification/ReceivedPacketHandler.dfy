/**
  When and what a path acknowledges (quic-go/ackhandler/received_packet_handler.go). Times are
  nanoseconds; the current time and the version are parameters.
 */
module ReceivedPacketHandler {
  import opened Basics
  import opened PacketNumber
  import opened AckRanges
  import opened AckFrames
  import C = ClosePathFrames
  import H = ReceivedPacketHistory

  const ACK_SEND_DELAY: nat := 25_000_000
  const MAX_PACKETS_BEFORE_ACK: nat := 20
  const RETRANSMITTABLE_PACKETS_BEFORE_ACK: nat := 2

  datatype State = State(
    largestObserved: nat,
    lowerLimit: nat,
    ranges: seq<AckRange>,
    packets: nat,
    packetsSinceLastAck: nat,
    retransmittableSinceLastAck: nat,
    ackQueued: bool,
    ackAlarm: Option<nat>,
    lastAck: Option<AckFrame>
  )

  datatype Outcome = Accepted | InvalidPacketNumber | TooManyRanges

  const INIT := State(0, 0, [], 0, 0, 0, false, None, None)

  // ----- Operations on values -----

  /** Decide whether the packet just recorded makes an ACK due, now or after a delay. */
  function QueueAck(st: State, p: nat, instigatesAck: bool, before39: bool, now: nat): State {
    var packets := st.packetsSinceLastAck + 1;
    var retransmittable := st.retransmittableSinceLastAck + if instigatesAck then 1 else 0;
    var highestFirst := if st.ranges == [] then 0 else st.ranges[0].first;
    var queued :=
      || st.ackQueued
      || st.lastAck.None?
      || (before39 && packets >= MAX_PACKETS_BEFORE_ACK)
      || (st.lastAck.Some? && p < st.lastAck.value.largest)
      || (st.lastAck.Some? && highestFirst > st.lastAck.value.largest)
      || (instigatesAck && retransmittable >= RETRANSMITTABLE_PACKETS_BEFORE_ACK);
    var alarm :=
      if queued then None
      else if instigatesAck && st.ackAlarm.None? then Some(now + ACK_SEND_DELAY)
      else st.ackAlarm;
    st.(
      packetsSinceLastAck := packets, retransmittableSinceLastAck := retransmittable,
      ackQueued := queued, ackAlarm := alarm)
  }

  function Receive(st: State, p: u64, instigatesAck: bool, before39: bool, now: nat): (State, Outcome) {
    if p == 0 then (st, InvalidPacketNumber)
    else
      var st1 := st.(packets := st.packets + 1, largestObserved := Max(st.largestObserved, p));
      if p <= st.lowerLimit then (st1, Accepted)
      else if |st.ranges| >= H.MAX_TRACKED_RANGES then (st1, TooManyRanges)
      else (QueueAck(st1.(ranges := H.Insert(st.ranges, p)), p, instigatesAck, before39, now), Accepted)
  }

  function SetLowerLimit(st: State, p: nat): State {
    st.(lowerLimit := p, ranges := H.Delete(st.ranges, p))
  }

  predicate AckDue(st: State, now: nat) {
    st.ackQueued || (st.ackAlarm.Some? && st.ackAlarm.value <= now)
  }

  /** The acknowledgement of everything recorded; the list of ranges is only used if it has gaps. */
  function CurrentAck(st: State, pathID: byte): AckFrame
    requires st.ranges != [] && st.largestObserved < TWO_64
  {
    AckFrame(pathID, st.largestObserved, st.ranges[|st.ranges| - 1].first, if |st.ranges| > 1 then st.ranges else [], 0)
  }

  function GetAckFrame(st: State, pathID: byte, now: nat): (State, Option<AckFrame>)
    requires AckDue(st, now) ==> st.ranges != [] && st.largestObserved < TWO_64
  {
    if !AckDue(st, now) then (st, None)
    else
      var ack := CurrentAck(st, pathID);
      (st.(lastAck := Some(ack), ackAlarm := None, ackQueued := false,
        packetsSinceLastAck := 0, retransmittableSinceLastAck := 0), Some(ack))
  }

  /** The CLOSE_PATH frame, which tells the peer what arrived on the path before it was closed. */
  function GetClosePathFrame(st: State, pathID: byte): C.ClosePathFrame
    requires st.ranges != [] && st.largestObserved < TWO_64
  {
    var ack := CurrentAck(st, pathID);
    C.ClosePathFrame(pathID, ack.largest, ack.lowest, ack.ranges)
  }

  // ----- The invariant of error-free runs -----

  /** The highest packet number observed heads the list, above the lower limit; no ACK is due before it exists. */
  ghost predicate Valid(st: State) {
    && Descending(H.TOP, st.ranges)
    && st.lowerLimit <= st.largestObserved < TWO_64
    && (forall q :: Contains(st.ranges, q) ==> 1 <= q)
    && (if st.largestObserved == 0 then st.ranges == [] && !st.ackQueued && st.ackAlarm.None?
        else st.lowerLimit < st.largestObserved && st.ranges != [] && st.ranges[0].last == st.largestObserved)
  }

  lemma {:induction false} HeadAfterInsert(ranges: seq<AckRange>, p: u64, largest: nat)
    requires Descending(H.TOP, ranges)
    requires if largest == 0 then ranges == [] else ranges != [] && ranges[0].last == largest
    requires 1 <= p
    ensures H.Insert(ranges, p) != [] && H.Insert(ranges, p)[0].last == Max(largest, p)
  {
  }

  /** Receiving a packet records exactly that number, unless it is below the limit, and keeps the invariant. */
  lemma {:induction false} ReceivedKeeps(st: State, p: u64, instigatesAck: bool, before39: bool, now: nat)
    requires Valid(st) && Receive(st, p, instigatesAck, before39, now).1 == Accepted
    ensures Valid(Receive(st, p, instigatesAck, before39, now).0)
    ensures var st' := Receive(st, p, instigatesAck, before39, now).0;
      forall q: nat :: Contains(st'.ranges, q) <==> Contains(st.ranges, q) || (q == p && st.lowerLimit < p)
  {
    if st.lowerLimit < p {
      H.InsertDescending(H.TOP, st.ranges, p);
      HeadAfterInsert(st.ranges, p, st.largestObserved);
      forall q: nat ensures Contains(H.Insert(st.ranges, p), q) <==> Contains(st.ranges, q) || q == p {
        H.InsertContains(H.TOP, st.ranges, p, q);
      }
    }
  }

  /** A limit below some received packet removes exactly the numbers up to it. */
  lemma {:induction false} LimitKeeps(st: State, p: nat)
    requires Valid(st) && p < st.largestObserved
    ensures Valid(SetLowerLimit(st, p))
    ensures forall q: nat :: Contains(SetLowerLimit(st, p).ranges, q) <==> Contains(st.ranges, q) && p < q
  {
    H.DeleteDescending(H.TOP, st.ranges, p);
    forall q: nat ensures Contains(H.Delete(st.ranges, p), q) <==> Contains(st.ranges, q) && p < q {
      H.DeleteContains(H.TOP, st.ranges, p, q);
    }
  }

  lemma {:induction false} CurrentAckIsExact(st: State, pathID: byte)
    requires Valid(st) && st.ranges != []
    ensures var f := CurrentAck(st, pathID);
      && f.largest == st.ranges[0].last
      && (f.largest < TWO_48 ==> WellFormed(f))
      && forall q: nat :: AcksPacket(f, q) <==> Contains(st.ranges, q)
  {
    var f := CurrentAck(st, pathID);
    var x, rest := st.ranges[0], st.ranges[1..];
    assert st.ranges == [x] + rest;
    LowestIsLower(x, rest);
    LastContained(x, rest);
    forall q: nat ensures AcksPacket(f, q) <==> Contains(st.ranges, q) {
      if Contains(st.ranges, q) {
        ContainsBounds(x, rest, q);
      }
    }
  }

  /**
    In a valid state an ACK can always be built when it is due, its largest number is the end of the
    highest range, and it acknowledges exactly the numbers recorded.
   */
  lemma {:induction false} AckIsExact(st: State, pathID: byte, now: nat)
    requires Valid(st) && AckDue(st, now)
    ensures st.ranges != [] && GetAckFrame(st, pathID, now).1.Some?
    ensures var f := GetAckFrame(st, pathID, now).1.value;
      && f.largest == st.ranges[0].last
      && (f.largest < TWO_48 ==> WellFormed(f))
      && forall q: nat :: AcksPacket(f, q) <==> Contains(st.ranges, q)
    ensures Valid(GetAckFrame(st, pathID, now).0) && GetAckFrame(st, pathID, now).0.ranges == st.ranges
  {
    CurrentAckIsExact(st, pathID);
  }

  lemma {:induction false} LastContained(x: AckRange, ranges: seq<AckRange>)
    requires x.first <= x.last && Descending(x.first, ranges)
    ensures Contains([x] + ranges, ([x] + ranges)[|ranges|].first)
    decreases |ranges|
  {
    var all := [x] + ranges;
    assert all[1..] == ranges;
    if ranges != [] {
      assert ranges == [ranges[0]] + ranges[1..];
      LastContained(ranges[0], ranges[1..]);
    }
  }

  // ----- The handler as an object -----

  class Handler {
    const before39: bool
    const history: H.History
    var largestObserved: nat
    var lowerLimit: nat
    var packets: nat
    var packetsSinceLastAck: nat
    var retransmittableSinceLastAck: nat
    var ackQueued: bool
    var ackAlarm: Option<nat>
    var lastAck: Option<AckFrame>

    ghost function Contents(): State
      reads this, history
    {
      State(largestObserved, lowerLimit, history.ranges, packets, packetsSinceLastAck,
        retransmittableSinceLastAck, ackQueued, ackAlarm, lastAck)
    }

    constructor (before39: bool)
      ensures Contents() == INIT && this.before39 == before39 && fresh(history)
    {
      this.before39 := before39;
      history := new H.History();
      largestObserved, lowerLimit, packets := 0, 0, 0;
      packetsSinceLastAck, retransmittableSinceLastAck := 0, 0;
      ackQueued, ackAlarm, lastAck := false, None, None;
    }

    method ReceivedPacket(p: u64, instigatesAck: bool, now: nat) returns (r: Outcome)
      requires Descending(H.TOP, history.ranges)
      modifies this, history
      ensures (Contents(), r) == Receive(old(Contents()), p, instigatesAck, before39, now)
      ensures Descending(H.TOP, history.ranges)
    {
      if p == 0 {
        return InvalidPacketNumber;
      }
      packets := packets + 1;
      if p > largestObserved {
        largestObserved := p;
      }
      if p <= lowerLimit {
        return Accepted;
      }
      var inserted := history.ReceivedPacket(p);
      if inserted == H.TooManyRanges {
        return TooManyRanges;
      }
      MaybeQueueAck(p, instigatesAck, now);
      r := Accepted;
    }

    method MaybeQueueAck(p: nat, instigatesAck: bool, now: nat)
      modifies this
      ensures Contents() == QueueAck(old(Contents()), p, instigatesAck, before39, now)
    {
      packetsSinceLastAck := packetsSinceLastAck + 1;
      if instigatesAck {
        retransmittableSinceLastAck := retransmittableSinceLastAck + 1;
      }
      if lastAck.None? {
        ackQueued := true;
      }
      if before39 && packetsSinceLastAck >= MAX_PACKETS_BEFORE_ACK {
        ackQueued := true;
      }
      if lastAck.Some? && p < lastAck.value.largest {
        ackQueued := true;
      }
      var highestFirst := if history.ranges == [] then 0 else history.ranges[0].first;
      if lastAck.Some? && highestFirst > lastAck.value.largest {
        ackQueued := true;
      }
      if !ackQueued && instigatesAck {
        if retransmittableSinceLastAck >= RETRANSMITTABLE_PACKETS_BEFORE_ACK {
          ackQueued := true;
        } else if ackAlarm.None? {
          ackAlarm := Some(now + ACK_SEND_DELAY);
        }
      }
      if ackQueued {
        ackAlarm := None;
      }
    }

    method SetLimit(p: nat)
      requires Descending(H.TOP, history.ranges)
      modifies this, history
      ensures Contents() == SetLowerLimit(old(Contents()), p)
      ensures Descending(H.TOP, history.ranges)
    {
      lowerLimit := p;
      history.DeleteUpTo(p);
    }

    method GetAck(pathID: byte, now: nat) returns (r: Option<AckFrame>)
      requires Valid(Contents())
      modifies this
      ensures (Contents(), r) == GetAckFrame(old(Contents()), pathID, now)
      ensures Valid(Contents())
    {
      if !ackQueued && (ackAlarm.None? || ackAlarm.value > now) {
        return None;
      }
      AckIsExact(Contents(), pathID, now);
      var ranges := history.ranges;
      var ack := AckFrame(pathID, largestObserved, ranges[|ranges| - 1].first, if |ranges| > 1 then ranges else [], 0);
      lastAck := Some(ack);
      ackAlarm := None;
      ackQueued := false;
      packetsSinceLastAck := 0;
      retransmittableSinceLastAck := 0;
      r := Some(ack);
    }
  }
}
