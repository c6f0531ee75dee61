/**
  What a path tells its peer to stop waiting for (quic-go/ackhandler/stop_waiting_manager.go).
 */
module StopWaiting {
  import opened Basics

  datatype State = State(largestSent: nat, next: nat, last: Option<nat>)

  const INIT := State(0, 0, None)

  /** The frame to send, if any, as its LeastUnacked field. */
  function GetFrame(st: State, force: bool): (State, Option<nat>) {
    if st.next <= st.largestSent then
      if !force then (st, None)
      else if st.last.None? && st.largestSent > 0 then (st.(last := Some(st.next)), Some(st.next))
      else (st, st.last)
    else (State(st.next, st.next, Some(st.next)), Some(st.next))
  }

  /** A number that needs no acknowledgement any more: it was acknowledged, or queued for retransmission. */
  function Settled(st: State, p: nat): (r: State)
    ensures r == st.(next := Max(st.next, p + 1))
  {
    if p >= st.next then st.(next := p + 1) else st
  }

  /** Frames name a number from 1 up to one past the last packet sent, and never more than the next one due. */
  predicate Valid(st: State, lastSent: nat) {
    && st.largestSent <= st.next <= lastSent + 1
    && (st.last.Some? ==> 1 <= st.last.value <= st.largestSent)
  }

  /** Every frame handed out asks for at least 1 and at most the number after the last packet sent. */
  lemma {:induction false} FrameInRange(st: State, force: bool, lastSent: nat)
    requires Valid(st, lastSent)
    ensures var (st', frame) := GetFrame(st, force);
      && Valid(st', lastSent)
      && (frame.Some? ==> 1 <= frame.value <= lastSent + 1 && st'.last == frame)
      && (!force && frame.Some? ==> frame.value > st.largestSent)
  {
  }

  class Manager {
    var largestLeastUnackedSent: nat
    var nextLeastUnacked: nat
    var lastStopWaitingFrame: Option<nat>

    ghost function Contents(): State
      reads this
    {
      State(largestLeastUnackedSent, nextLeastUnacked, lastStopWaitingFrame)
    }

    constructor ()
      ensures Contents() == INIT
    {
      largestLeastUnackedSent, nextLeastUnacked, lastStopWaitingFrame := 0, 0, None;
    }

    method GetStopWaitingFrame(force: bool) returns (r: Option<nat>)
      modifies this
      ensures (Contents(), r) == GetFrame(old(Contents()), force)
    {
      if nextLeastUnacked <= largestLeastUnackedSent {
        if force {
          if lastStopWaitingFrame.None? && largestLeastUnackedSent > 0 {
            lastStopWaitingFrame := Some(nextLeastUnacked);
          }
          return lastStopWaitingFrame;
        }
        return None;
      }
      largestLeastUnackedSent := nextLeastUnacked;
      lastStopWaitingFrame := Some(nextLeastUnacked);
      r := lastStopWaitingFrame;
    }

    method ReceivedAck(largestAcked: nat)
      modifies this
      ensures Contents() == Settled(old(Contents()), largestAcked)
    {
      if largestAcked >= nextLeastUnacked {
        nextLeastUnacked := largestAcked + 1;
      }
    }

    method QueuedRetransmissionForPacketNumber(p: nat)
      modifies this
      ensures Contents() == Settled(old(Contents()), p)
    {
      if p >= nextLeastUnacked {
        nextLeastUnacked := p + 1;
      }
    }
  }
}
