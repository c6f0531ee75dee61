/**
  The flow controller of one stream or of the connection (quic-go/internal/flowcontrol/flow_controller.go).
  The current time, the RTT estimates and the peer's initial window are parameters.
 */
module FlowController {
  import opened Basics

  datatype Controller = Controller(
    contributes: bool,
    bytesSent: nat,
    sendWindow: nat,
    bytesRetrans: nat,
    bytesRead: nat,
    highestReceived: nat,
    receiveWindow: nat,
    increment: nat,
    maxIncrement: nat,
    lastUpdate: Option<int>
  )

  datatype Clock = Clock(now: int, smoothedRTT: nat, remoteRTTs: seq<nat>)

  function Init(contributes: bool, window: nat, maxIncrement: nat): Controller {
    Controller(contributes, 0, 0, 0, 0, 0, window, window, maxIncrement, None)
  }

  // ----- Sending -----

  /** Until the first window update, the window is the one agreed on in the handshake. */
  function SendWindowOffset(c: Controller, negotiated: nat): nat {
    if c.sendWindow == 0 then negotiated else c.sendWindow
  }

  function SendWindowSize(c: Controller, negotiated: nat): nat {
    var window := SendWindowOffset(c, negotiated);
    if c.bytesSent > window then 0 else window - c.bytesSent
  }

  function UpdateSendWindow(c: Controller, offset: nat): (Controller, bool) {
    if offset > c.sendWindow then (c.(sendWindow := offset), true) else (c, false)
  }

  /** Sending no more than the window size keeps all bytes sent within the window. */
  lemma {:induction false} WithinSendWindow(c: Controller, negotiated: nat, n: nat)
    requires c.bytesSent <= SendWindowOffset(c, negotiated)
    ensures n <= SendWindowSize(c, negotiated)
      <==> c.(bytesSent := c.bytesSent + n).bytesSent <= SendWindowOffset(c, negotiated)
  {
  }

  /** The first update counts even if it lies below the window agreed on. */
  predicate Lowers(c: Controller, negotiated: nat, offset: nat) {
    c.sendWindow == 0 && 0 < offset < negotiated
  }

  /** The window in force does not shrink, if and only if it is not the first update and a lower one. */
  lemma {:induction false} WindowOfPeerGrows(c: Controller, negotiated: nat, offset: nat)
    ensures SendWindowOffset(UpdateSendWindow(c, offset).0, negotiated) >= SendWindowOffset(c, negotiated)
      <==> !Lowers(c, negotiated, offset)
  {
  }

  /** A first update that cuts off what was sent already. */
  predicate CutsOff(c: Controller, offset: nat) {
    c.sendWindow == 0 && 0 < offset < c.bytesSent
  }

  /** The bytes sent stay within the window, if and only if the first update does not cut them off. */
  lemma {:induction false} UpdateStaysWithin(c: Controller, negotiated: nat, offset: nat)
    requires c.bytesSent <= SendWindowOffset(c, negotiated)
    ensures var c' := UpdateSendWindow(c, offset).0;
      c'.bytesSent <= SendWindowOffset(c', negotiated) <==> !CutsOff(c, offset)
  {
  }

  /** Eighty bytes are sent within a window of a hundred; the first update allows fifty. */
  lemma {:induction false} FirstUpdateLowers()
    ensures var c := Init(true, 100, 100).(bytesSent := 80);
      var c' := UpdateSendWindow(c, 50).0;
      && c.bytesSent <= SendWindowOffset(c, 100) && UpdateSendWindow(c, 50).1
      && SendWindowOffset(c', 100) == 50 < c'.bytesSent
  {
  }

  // ----- Receiving -----

  /** How many bytes are new, or nothing if the offset is below one received before. */
  function UpdateHighest(c: Controller, offset: nat): (Controller, Option<nat>) {
    if offset >= c.highestReceived then (c.(highestReceived := offset), Some(offset - c.highestReceived)) else (c, None)
  }

  predicate Violated(c: Controller) {
    c.highestReceived > c.receiveWindow
  }

  function AddBytesRead(c: Controller, n: nat, now: int): Controller {
    c.(lastUpdate := if c.bytesRead == 0 then Some(now) else c.lastUpdate, bytesRead := c.bytesRead + n)
  }

  function MaxOf(rtts: seq<nat>): nat {
    if rtts == [] then 0 else Max(rtts[0], MaxOf(rtts[1..]))
  }

  /** Window updates have followed each other too quickly. */
  predicate TooFrequent(c: Controller, clock: Clock) {
    && c.lastUpdate.Some?
    && clock.smoothedRTT != 0
    && clock.now - c.lastUpdate.value < 2 * Max(clock.smoothedRTT, MaxOf(clock.remoteRTTs))
  }

  function AdjustedIncrement(c: Controller, clock: Clock): nat {
    if TooFrequent(c, clock) then Min(2 * c.increment, c.maxIncrement) else c.increment
  }

  /** The bytes left in the window, on 64-bit unsigned numbers. */
  function Remaining(c: Controller): int {
    if c.bytesRead <= c.receiveWindow then c.receiveWindow - c.bytesRead else c.receiveWindow - c.bytesRead + TWO_64
  }

  predicate UpdateNecessary(c: Controller) {
    Remaining(c) < c.increment / 2
  }

  datatype Update = Update(c: Controller, necessary: bool, newIncrement: nat, offset: nat)

  function MaybeUpdateWindow(c: Controller, clock: Clock): Update {
    if !UpdateNecessary(c) then Update(c, false, c.increment, c.receiveWindow)
    else
      var increment := AdjustedIncrement(c, clock);
      var window := c.bytesRead + increment;
      Update(
        c.(increment := increment, lastUpdate := Some(clock.now), receiveWindow := window),
        true, if increment != c.increment then increment else 0, window)
  }

  function EnsureMinimum(c: Controller, increment: nat): Controller {
    if increment > c.increment then c.(increment := Min(increment, c.maxIncrement), lastUpdate := None) else c
  }

  // ----- The window -----

  /**
    Exactly when an update does not move the window back: it is not made, or the increment was not doubled, or
    it was within its maximum, or the maximum still reaches beyond the old window.
   */
  lemma {:induction false} WindowMovesForward(c: Controller, clock: Clock)
    requires c.bytesRead <= c.receiveWindow
    ensures MaybeUpdateWindow(c, clock).c.receiveWindow >= c.receiveWindow <==>
      || !UpdateNecessary(c)
      || !TooFrequent(c, clock)
      || c.increment <= c.maxIncrement
      || c.bytesRead + c.maxIncrement >= c.receiveWindow
  {
  }

  /** Within the maximum an update always gains at least half an increment, and stays within the maximum. */
  lemma {:induction false} WindowGrows(c: Controller, clock: Clock)
    requires c.bytesRead <= c.receiveWindow && c.increment <= c.maxIncrement
    ensures var u := MaybeUpdateWindow(c, clock);
      && u.c.increment <= u.c.maxIncrement && c.increment <= u.c.increment
      && u.c.bytesRead <= u.c.receiveWindow
      && (if UpdateNecessary(c) then u.c.receiveWindow >= c.receiveWindow + c.increment / 2 else u.c == c)
  {
  }

  /** An increment above its maximum lets the window shrink below what the peer was promised. */
  lemma {:induction false} WindowCanShrink(clock: Clock)
    requires clock.smoothedRTT > 0
    ensures var c := AddBytesRead(UpdateHighest(Init(true, 100, 10), 90).0, 60, clock.now);
      && c.bytesRead <= c.highestReceived <= c.receiveWindow && c.increment > c.maxIncrement
      && MaybeUpdateWindow(c, clock).c.receiveWindow < c.highestReceived
  {
    assert MaxOf(clock.remoteRTTs) >= 0;
  }

  /** The order in which streams ask for a larger connection window does not matter. */
  lemma {:induction false} EnsureCommutes(c: Controller, a: nat, b: nat)
    requires c.increment <= c.maxIncrement
    ensures EnsureMinimum(EnsureMinimum(c, a), b) == EnsureMinimum(EnsureMinimum(c, b), a)
  {
  }

  // ----- The controller as an object -----

  method MaxRemoteRTT(rtts: seq<nat>) returns (m: nat)
    ensures m == MaxOf(rtts)
  {
    m := 0;
    var rest := rtts;
    while rest != []
      invariant Max(m, MaxOf(rest)) == MaxOf(rtts)
      decreases |rest|
    {
      m := Max(m, rest[0]);
      rest := rest[1..];
    }
  }

  class FlowControl {
    const contributes: bool
    const maxReceiveWindowIncrement: nat
    var bytesSent: nat
    var sendWindow: nat
    var bytesRetrans: nat
    var bytesRead: nat
    var highestReceived: nat
    var receiveWindow: nat
    var receiveWindowIncrement: nat
    var lastWindowUpdateTime: Option<int>

    ghost function Contents(): Controller
      reads this
    {
      Controller(contributes, bytesSent, sendWindow, bytesRetrans, bytesRead, highestReceived, receiveWindow,
        receiveWindowIncrement, maxReceiveWindowIncrement, lastWindowUpdateTime)
    }

    constructor (contributes: bool, window: nat, maxIncrement: nat)
      ensures Contents() == Init(contributes, window, maxIncrement)
    {
      this.contributes := contributes;
      maxReceiveWindowIncrement := maxIncrement;
      bytesSent, sendWindow, bytesRetrans, bytesRead, highestReceived := 0, 0, 0, 0, 0;
      receiveWindow, receiveWindowIncrement, lastWindowUpdateTime := window, window, None;
    }

    method UpdateWindowOfPeer(offset: nat) returns (updated: bool)
      modifies this
      ensures (Contents(), updated) == UpdateSendWindow(old(Contents()), offset)
    {
      updated := offset > sendWindow;
      if updated {
        sendWindow := offset;
      }
    }

    method AddBytesSent(n: nat)
      modifies this
      ensures Contents() == old(Contents()).(bytesSent := old(bytesSent) + n)
    {
      bytesSent := bytesSent + n;
    }

    method AddBytesRetrans(n: nat)
      modifies this
      ensures Contents() == old(Contents()).(bytesRetrans := old(bytesRetrans) + n)
    {
      bytesRetrans := bytesRetrans + n;
    }

    method IncrementHighestReceived(increment: nat)
      modifies this
      ensures Contents() == old(Contents()).(highestReceived := old(highestReceived) + increment)
    {
      highestReceived := highestReceived + increment;
    }

    method UpdateHighestReceived(offset: nat) returns (increment: Option<nat>)
      modifies this
      ensures (Contents(), increment) == UpdateHighest(old(Contents()), offset)
    {
      if offset == highestReceived {
        return Some(0);
      }
      if offset > highestReceived {
        increment := Some(offset - highestReceived);
        highestReceived := offset;
        return;
      }
      increment := None;
    }

    method Read(n: nat, now: int)
      modifies this
      ensures Contents() == AddBytesRead(old(Contents()), n, now)
    {
      if bytesRead == 0 {
        lastWindowUpdateTime := Some(now);
      }
      bytesRead := bytesRead + n;
    }

    method UpdateWindow(clock: Clock) returns (necessary: bool, newIncrement: nat, offset: nat)
      modifies this
      ensures var u := MaybeUpdateWindow(old(Contents()), clock);
        Contents() == u.c && (necessary, newIncrement, offset) == (u.necessary, u.newIncrement, u.offset)
    {
      var diff := if bytesRead <= receiveWindow then receiveWindow - bytesRead else receiveWindow - bytesRead + TWO_64;
      if diff < receiveWindowIncrement / 2 {
        var oldIncrement := receiveWindowIncrement;
        MaybeAdjustWindowIncrement(clock);
        newIncrement := if receiveWindowIncrement != oldIncrement then receiveWindowIncrement else 0;
        lastWindowUpdateTime := Some(clock.now);
        receiveWindow := bytesRead + receiveWindowIncrement;
        return true, newIncrement, receiveWindow;
      }
      return false, receiveWindowIncrement, receiveWindow;
    }

    method MaybeAdjustWindowIncrement(clock: Clock)
      modifies this
      ensures Contents() == old(Contents()).(increment := AdjustedIncrement(old(Contents()), clock))
    {
      if lastWindowUpdateTime.None? || clock.smoothedRTT == 0 {
        return;
      }
      var remote := MaxRemoteRTT(clock.remoteRTTs);
      if clock.now - lastWindowUpdateTime.value >= 2 * Max(clock.smoothedRTT, remote) {
        return;
      }
      receiveWindowIncrement := Min(2 * receiveWindowIncrement, maxReceiveWindowIncrement);
    }

    method EnsureMinimumWindowIncrement(increment: nat)
      modifies this
      ensures Contents() == EnsureMinimum(old(Contents()), increment)
    {
      if increment > receiveWindowIncrement {
        receiveWindowIncrement := Min(increment, maxReceiveWindowIncrement);
        lastWindowUpdateTime := None;
      }
    }
  }
}
