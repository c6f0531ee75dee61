/**
  What a path does with the packets it has sent (quic-go/ackhandler/sent_packet_handler.go): tracking them,
  matching acknowledgements, declaring losses, probing and timing out.

  The current time and the RTT estimates are parameters; congestion control is told about the packets that
  each operation reports as acknowledged or moved. Byte counters are unbounded.
 */
module SentPacketHandler {
  import opened Basics
  import opened AckRanges
  import opened AckFrames
  import opened SentPackets
  import C = ClosePathFrames
  import SW = StopWaiting

  const MAX_TRACKED_SENT: nat := 5000
  const MAX_TRACKED_SKIPPED: nat := 10
  const MAX_TAIL_LOSS_PROBES: nat := 2

  datatype State = State(
    lastSent: nat,
    skipped: seq<nat>,
    nonRetransmittable: nat,
    largestAcked: nat,
    largestWithAck: nat,
    history: seq<Packet>,
    queue: seq<Packet>,
    bytesInFlight: int,
    ackedBytes: int,
    sentBytes: int,
    rtoCount: nat,
    tlpCount: nat,
    lossTime: Option<int>,
    packets: nat,
    retransmissions: nat,
    losses: nat,
    stopWaiting: SW.State
  )

  const INIT := State(0, [], 0, 0, 0, [], [], 0, 0, 0, 0, 0, None, 0, 0, 0, SW.INIT)

  datatype Clock = Clock(now: int, latestRTT: nat, smoothedRTT: nat)

  datatype Outcome =
    | Done | NotIncreasing | TooManyTracked
    | AckForUnsent | DuplicateAck | AckForSkipped | WrongRange

  /** A new state, what the caller is told, and the packets that left the history: acknowledged, or queued again. */
  datatype Effect = Effect(st: State, outcome: Outcome, acked: seq<Packet>, moved: seq<Packet>)

  // ----- Sending -----

  function Capped(skipped: seq<nat>): seq<nat> {
    if |skipped| > MAX_TRACKED_SKIPPED then skipped[1..] else skipped
  }

  /** Remember the numbers from `first` up to, not including, `end` as skipped; only the latest are kept. */
  function AddSkipped(skipped: seq<nat>, first: nat, end: nat): seq<nat>
    decreases end - first
  {
    if first >= end then skipped else AddSkipped(Capped(skipped + [first]), first + 1, end)
  }

  function Sent(st: State, number: nat, frames: seq<FrameKind>, length: nat, now: int): (State, Outcome) {
    if number <= st.lastSent then (st, NotIncreasing)
    else if |st.queue| + |st.history| + 1 > MAX_TRACKED_SENT then (st, TooManyTracked)
    else
      var st1 := st.(
        skipped := AddSkipped(st.skipped, st.lastSent + 1, number),
        lastSent := number,
        packets := st.packets + 1);
      (Tracked(st1, Packet(number, Strip(frames), length, now)), Done)
  }

  /** Packets are only tracked if some frame in them would have to be sent again. */
  function Tracked(st: State, p: Packet): State {
    if p.frames == [] then st.(nonRetransmittable := st.nonRetransmittable + 1)
    else st.(
      bytesInFlight := st.bytesInFlight + p.length,
      sentBytes := st.sentBytes + p.length,
      history := st.history + [p],
      nonRetransmittable := 0)
  }

  // ----- Packets leaving the history -----

  function AckOne(st: State, p: Packet): State {
    st.(
      bytesInFlight := st.bytesInFlight - p.length,
      rtoCount := 0,
      tlpCount := 0,
      history := Without(st.history, p.number),
      ackedBytes := st.ackedBytes + p.length)
  }

  function AckAll(st: State, ps: seq<Packet>): State
    decreases |ps|
  {
    if ps == [] then st else AckAll(AckOne(st, ps[0]), ps[1..])
  }

  function QueueOne(st: State, p: Packet): State {
    st.(
      bytesInFlight := st.bytesInFlight - p.length,
      queue := st.queue + [p],
      history := Without(st.history, p.number),
      stopWaiting := SW.Settled(st.stopWaiting, p.number))
  }

  function QueueAll(st: State, ps: seq<Packet>): State
    decreases |ps|
  {
    if ps == [] then st else QueueAll(QueueOne(st, ps[0]), ps[1..])
  }

  /** One past the highest number in the list, or `low` if that is higher. */
  function Above(low: nat, ps: seq<Packet>): nat
    decreases |ps|
  {
    if ps == [] then low else Above(Max(low, ps[0].number + 1), ps[1..])
  }

  /** All of the packets acknowledged at once. */
  function Acknowledged(st: State, ps: seq<Packet>): State {
    st.(
      history := Leave(st.history, ps),
      bytesInFlight := st.bytesInFlight - Bytes(ps),
      ackedBytes := st.ackedBytes + Bytes(ps),
      rtoCount := if ps == [] then st.rtoCount else 0,
      tlpCount := if ps == [] then st.tlpCount else 0)
  }

  /** All of the packets queued for retransmission at once, `lost` of them counted as lost. */
  function Queued(st: State, ps: seq<Packet>, lost: nat): State {
    st.(
      history := Leave(st.history, ps),
      queue := st.queue + ps,
      bytesInFlight := st.bytesInFlight - Bytes(ps),
      losses := st.losses + lost,
      stopWaiting := st.stopWaiting.(next := Above(st.stopWaiting.next, ps)))
  }

  // ----- Loss detection -----

  function DelayUntilLost(clock: Clock): nat {
    9 * Max(clock.latestRTT, clock.smoothedRTT) / 8
  }

  predicate Overdue(p: Packet, clock: Clock) {
    clock.now - p.sendTime > DelayUntilLost(clock)
  }

  function Lost(ps: seq<Packet>, largestAcked: nat, clock: Clock): seq<Packet> {
    if ps == [] || ps[0].number > largestAcked then []
    else (if Overdue(ps[0], clock) then [ps[0]] else []) + Lost(ps[1..], largestAcked, clock)
  }

  /** When the first packet that is still within its time will be lost. */
  function NextLoss(ps: seq<Packet>, largestAcked: nat, clock: Clock): Option<int> {
    if ps == [] || ps[0].number > largestAcked then None
    else if Overdue(ps[0], clock) then NextLoss(ps[1..], largestAcked, clock)
    else Some(clock.now + (DelayUntilLost(clock) - (clock.now - ps[0].sendTime)))
  }

  function UpTo(ps: seq<Packet>, largestAcked: nat): seq<Packet> {
    if ps == [] || ps[0].number > largestAcked then [] else [ps[0]] + UpTo(ps[1..], largestAcked)
  }

  function DetectLost(st: State, clock: Clock): Effect {
    var lost := Lost(st.history, st.largestAcked, clock);
    var st1 := Queued(st, lost, |lost|);
    Effect(st1.(lossTime := NextLoss(st.history, st.largestAcked, clock)), Done, [], lost)
  }

  /** When the peer closes the path, everything up to the largest acknowledged number counts as lost. */
  function InflightLost(st: State): Effect {
    var lost := UpTo(st.history, st.largestAcked);
    Effect(Queued(st, lost, |lost|), Done, [], lost)
  }

  // ----- Acknowledgements -----

  function LargestInOrderAcked(st: State): int {
    if st.history == [] then st.largestAcked else st.history[0].number - 1
  }

  predicate SkippedAcked(skipped: seq<nat>, f: AckFrame) {
    exists p :: p in skipped && AcksPacket(f, p)
  }

  /** Drop everything up to the last skipped number that is at most `acked`. */
  function Collect(skipped: seq<nat>, acked: int): seq<nat> {
    if exists p :: p in skipped && p <= acked then Collect(skipped[1..], acked) else skipped
  }

  function Collected(st: State): State {
    st.(skipped := Collect(st.skipped, LargestInOrderAcked(st)))
  }

  /** The frame has been accepted: acknowledge what it covers, then look for losses below it. */
  function AckMatched(st: State, f: AckFrame, clock: Clock): Effect {
    var acked := Acked(st.history, f);
    var lost := DetectLost(Acknowledged(st, acked), clock);
    var st3 := Collected(lost.st);
    Effect(st3.(stopWaiting := SW.Settled(st3.stopWaiting, f.largest)), Done, acked, lost.moved)
  }

  function ReceivedAck(st: State, f: AckFrame, withNumber: nat, clock: Clock): Effect {
    if f.largest > st.lastSent then Effect(st, AckForUnsent, [], [])
    else if withNumber <= st.largestWithAck then Effect(st, DuplicateAck, [], [])
    else
      var st1 := st.(largestWithAck := withNumber);
      if f.largest <= LargestInOrderAcked(st) then Effect(st1, Done, [], [])
      else
        var st2 := st1.(largestAcked := f.largest);
        if SkippedAcked(st.skipped, f) then Effect(st2, AckForSkipped, [], [])
        else AckMatched(st2, f, clock)
  }

  function CloseMatched(st: State, f: AckFrame): Effect {
    var acked := Acked(st.history, f);
    var lost := InflightLost(Acknowledged(st, acked));
    Effect(Collected(lost.st), Done, acked, lost.moved)
  }

  function ReceivedClosePath(st: State, f: C.ClosePathFrame, withNumber: nat): Effect {
    if f.largest > st.lastSent then Effect(st, AckForUnsent, [], [])
    else if withNumber <= st.largestWithAck then Effect(st, DuplicateAck, [], [])
    else
      var st1 := st.(largestWithAck := withNumber);
      if SkippedAcked(st.skipped, f.Ack()) then Effect(st1, AckForSkipped, [], [])
      else CloseMatched(st1, f.Ack())
  }

  // ----- Timers and retransmissions -----

  predicate HasOutstanding(ps: seq<Packet>) {
    exists p :: p in ps && p.IsRetransmittable()
  }

  function OldestTwo(ps: seq<Packet>): seq<Packet> {
    if |ps| <= 2 then ps else ps[..2]
  }

  function OnAlarm(st: State, clock: Clock, potentiallyFailed: bool): Effect {
    if !HasOutstanding(st.history) then Effect(st, Done, [], [])
    else if st.lossTime.Some? then DetectLost(st, clock)
    else if st.tlpCount < MAX_TAIL_LOSS_PROBES then
      var probe := [st.history[|st.history| - 1]];
      var st1 := Queued(st, probe, 0);
      Effect(st1.(tlpCount := st1.tlpCount + 1), Done, [], probe)
    else
      var timedOut := if potentiallyFailed then st.history else OldestTwo(st.history);
      var st1 := Queued(st, timedOut, |timedOut|);
      Effect(st1.(rtoCount := st1.rtoCount + 1), Done, [], timedOut)
  }

  function Dequeued(st: State): (State, Option<Packet>) {
    if st.queue == [] then (st, None)
    else (st.(queue := st.queue[1..], retransmissions := st.retransmissions + 1), Some(st.queue[0]))
  }

  function Duplicated(st: State, p: Packet): State {
    st.(queue := st.queue + [p])
  }

  function GetStopWaiting(st: State, force: bool): (State, Option<nat>) {
    var (sw, frame) := SW.GetFrame(st.stopWaiting, force);
    (st.(stopWaiting := sw), frame)
  }

  predicate SendingAllowed(st: State, congestionWindow: int) {
    && |st.queue| + |st.history| < MAX_TRACKED_SENT
    && (st.bytesInFlight <= congestionWindow || st.queue != [])
  }

  /** While sending is allowed, a packet is refused if and only if its number does not increase. */
  lemma {:induction false} AllowedIsAccepted(
    st: State, congestionWindow: int, number: nat, frames: seq<FrameKind>, length: nat, now: int)
    requires SendingAllowed(st, congestionWindow)
    ensures Sent(st, number, frames, length, now).1 == (if number > st.lastSent then Done else NotIncreasing)
  {
  }

  // ----- Facts about the pieces -----

  lemma {:induction false} AckAllEffect(st: State, ps: seq<Packet>)
    requires Numbered(0, st.history, st.lastSent) && Among(ps, st.history)
    ensures AckAll(st, ps) == Acknowledged(st, ps)
    decreases |ps|
  {
    if ps == [] {
      LeaveNone(st.history);
    } else {
      LeaveFirst(0, st.history, st.lastSent, ps);
      AckAllEffect(AckOne(st, ps[0]), ps[1..]);
    }
  }

  lemma {:induction false} AboveBounded(low: nat, ps: seq<Packet>, bound: nat)
    requires low <= bound && forall p :: p in ps ==> p.number < bound
    ensures low <= Above(low, ps) <= bound
    decreases |ps|
  {
    if ps != [] {
      AboveBounded(Max(low, ps[0].number + 1), ps[1..], bound);
    }
  }

  lemma {:induction false} QueueAllEffect(st: State, ps: seq<Packet>)
    requires Numbered(0, st.history, st.lastSent) && Among(ps, st.history)
    ensures QueueAll(st, ps) == Queued(st, ps, 0)
    decreases |ps|
  {
    if ps == [] {
      LeaveNone(st.history);
      assert st.queue + ps == st.queue;
    } else {
      LeaveFirst(0, st.history, st.lastSent, ps);
      QueueAllEffect(QueueOne(st, ps[0]), ps[1..]);
      assert st.queue + [ps[0]] + ps[1..] == st.queue + ps;
    }
  }

  /** The packets declared lost are the overdue ones among those below the largest acknowledged number. */
  lemma {:induction false} LostAmong(low: nat, ps: seq<Packet>, high: nat, largestAcked: nat, clock: Clock)
    requires Numbered(low, ps, high)
    ensures Among(Lost(ps, largestAcked, clock), ps)
    ensures (forall p ::
      p in Lost(ps, largestAcked, clock) <==> p in ps && p.number <= largestAcked && Overdue(p, clock))
    decreases |ps|
  {
    if ps != [] {
      NumberedBounds(ps[0].number, ps[1..], high);
      LostAmong(ps[0].number, ps[1..], high, largestAcked, clock);
      assert ps == [ps[0]] + ps[1..];
      if ps[0].number <= largestAcked {
        var tail := Lost(ps[1..], largestAcked, clock);
        assert ([ps[0]] + tail)[1..] == tail && [] + tail == tail;
        assert tail != [] ==> tail[0] in tail;
      }
    }
  }

  lemma {:induction false} UpToAmong(low: nat, ps: seq<Packet>, high: nat, largestAcked: nat)
    requires Numbered(low, ps, high)
    ensures Among(UpTo(ps, largestAcked), ps)
    ensures forall p :: p in UpTo(ps, largestAcked) <==> p in ps && p.number <= largestAcked
    decreases |ps|
  {
    if ps != [] {
      NumberedBounds(ps[0].number, ps[1..], high);
      UpToAmong(ps[0].number, ps[1..], high, largestAcked);
      assert ps == [ps[0]] + ps[1..];
      if ps[0].number <= largestAcked {
        var tail := UpTo(ps[1..], largestAcked);
        assert ([ps[0]] + tail)[1..] == tail;
      }
    }
  }

  lemma {:induction false} PrefixAmong(ps: seq<Packet>, k: nat)
    requires k <= |ps|
    ensures Among(ps[..k], ps)
  {
    if k > 0 {
      PrefixAmong(ps[1..], k - 1);
      assert ps[..k][1..] == ps[1..][..k - 1];
    }
  }

  lemma {:induction false} LastAmong(ps: seq<Packet>)
    requires ps != []
    ensures Among([ps[|ps| - 1]], ps)
  {
    if |ps| > 1 {
      LastAmong(ps[1..]);
      assert [ps[|ps| - 1]][1..] == [];
    }
  }

  // ----- Skipped numbers -----

  ghost predicate Climbing(low: nat, ns: seq<nat>, high: nat)
    decreases |ns|
  {
    if ns == [] then low <= high else low < ns[0] && Climbing(ns[0], ns[1..], high)
  }

  lemma {:induction false} ClimbingPush(low: nat, ns: seq<nat>, high: nat, n: nat)
    requires Climbing(low, ns, high) && high < n
    ensures Climbing(low, ns + [n], n)
    decreases |ns|
  {
    if ns != [] {
      ClimbingPush(ns[0], ns[1..], high, n);
      assert (ns + [n])[1..] == ns[1..] + [n];
    }
  }

  lemma {:induction false} ClimbingWider(low: nat, ns: seq<nat>, high: nat, low': nat, high': nat)
    requires Climbing(low, ns, high) && low' <= low && high <= high'
    ensures Climbing(low', ns, high')
    decreases |ns|
  {
    if ns != [] {
      ClimbingWider(ns[0], ns[1..], high, ns[0], high');
    }
  }

  lemma {:induction false} ClimbingBounds(low: nat, ns: seq<nat>, high: nat)
    requires Climbing(low, ns, high)
    ensures low <= high && forall n :: n in ns ==> low < n <= high
    decreases |ns|
  {
    if ns != [] {
      ClimbingBounds(ns[0], ns[1..], high);
      assert forall n :: n in ns ==> n == ns[0] || n in ns[1..];
    }
  }

  function Span(first: nat, end: nat): seq<nat>
    decreases end - first
  {
    if first >= end then [] else [first] + Span(first + 1, end)
  }

  function Latest(ns: seq<nat>): seq<nat> {
    if |ns| <= MAX_TRACKED_SKIPPED then ns else ns[|ns| - MAX_TRACKED_SKIPPED..]
  }

  lemma {:induction false} LatestOfCapped(ns: seq<nat>, rest: seq<nat>)
    requires |ns| <= MAX_TRACKED_SKIPPED + 1
    ensures Latest(Capped(ns) + rest) == Latest(ns + rest)
  {
    if |ns| > MAX_TRACKED_SKIPPED {
      var all := ns + rest;
      assert ns[1..] + rest == all[1..];
      var k := |all| - MAX_TRACKED_SKIPPED;
      assert all[1..][k - 1..] == all[k..];
    }
  }

  /** Old and newly skipped numbers in order, cut to the ten latest. */
  lemma {:induction false} AddSkippedKeepsLatest(skipped: seq<nat>, first: nat, end: nat)
    requires |skipped| <= MAX_TRACKED_SKIPPED
    ensures AddSkipped(skipped, first, end) == Latest(skipped + Span(first, end))
    decreases end - first
  {
    if first < end {
      var rest, next := Span(first + 1, end), skipped + [first];
      AddSkippedKeepsLatest(Capped(next), first + 1, end);
      LatestOfCapped(next, rest);
      Associate(skipped, [first], rest);
    } else {
      assert skipped + [] == skipped;
    }
  }

  lemma {:induction false} AddSkippedClimbs(skipped: seq<nat>, low: nat, first: nat, end: nat)
    requires first < end && Climbing(low, skipped, first) && |skipped| <= MAX_TRACKED_SKIPPED
    ensures Climbing(0, AddSkipped(skipped, first + 1, end), end - 1)
    ensures |AddSkipped(skipped, first + 1, end)| <= MAX_TRACKED_SKIPPED
    ensures forall n :: n in AddSkipped(skipped, first + 1, end) ==> n in skipped || first < n < end
    decreases end - first
  {
    if first + 1 < end {
      var next := skipped + [first + 1];
      ClimbingPush(low, skipped, first, first + 1);
      AddSkippedClimbs(Capped(next), if |next| > MAX_TRACKED_SKIPPED then next[0] else low, first + 1, end);
      assert AddSkipped(skipped, first + 1, end) == AddSkipped(Capped(next), first + 1 + 1, end);
      forall n | n in Capped(next) ensures n in skipped || n == first + 1 {
        assert n in next;
      }
    } else {
      ClimbingWider(low, skipped, first, 0, end - 1);
    }
  }

  /** Garbage collection keeps exactly the skipped numbers above the limit. */
  lemma {:induction false} CollectKeepsAbove(low: nat, skipped: seq<nat>, high: nat, acked: int)
    requires Climbing(low, skipped, high)
    ensures Climbing(low, Collect(skipped, acked), high)
    ensures |Collect(skipped, acked)| <= |skipped|
    ensures forall n :: n in Collect(skipped, acked) <==> n in skipped && n > acked
    decreases |skipped|
  {
    if p :| p in skipped && p <= acked {
      assert skipped == [skipped[0]] + skipped[1..];
      ClimbingBounds(skipped[0], skipped[1..], high);
      CollectKeepsAbove(skipped[0], skipped[1..], high, acked);
      ClimbingWider(skipped[0], Collect(skipped[1..], acked), high, low, high);
    }
  }

  // ----- The invariant -----

  ghost predicate Valid(st: State) {
    && Numbered(0, st.history, st.lastSent)
    && st.bytesInFlight == Bytes(st.history)
    && st.largestAcked <= st.lastSent
    && Bookkeeping(st.skipped, st.stopWaiting, st.lastSent)
  }

  ghost predicate Bookkeeping(skipped: seq<nat>, stopWaiting: SW.State, lastSent: nat) {
    Climbing(0, skipped, lastSent) && |skipped| <= MAX_TRACKED_SKIPPED && SW.Valid(stopWaiting, lastSent)
  }

  /** First the acknowledged packets leave the history, then the moved ones, and the counters follow. */
  ghost predicate Departs(st: State, e: Effect) {
    && Among(e.acked, st.history)
    && Among(e.moved, Leave(st.history, e.acked))
    && e.st.history == Leave(Leave(st.history, e.acked), e.moved)
    && e.st.queue == st.queue + e.moved
    && e.st.bytesInFlight == st.bytesInFlight - Bytes(e.acked) - Bytes(e.moved)
    && e.st.ackedBytes == st.ackedBytes + Bytes(e.acked)
    && e.st.sentBytes == st.sentBytes
    && e.st.lastSent == st.lastSent
    && e.st.largestAcked <= st.lastSent
    && Bookkeeping(e.st.skipped, e.st.stopWaiting, st.lastSent)
    && Fewer(e.st.skipped, st.skipped)
  }

  ghost predicate Fewer(a: seq<nat>, b: seq<nat>) {
    forall n :: n in a ==> n in b
  }

  lemma {:induction false} NothingDeparts(st: State, e: Effect)
    requires Valid(st) && e.acked == [] && e.moved == []
    requires e.st == st.(largestWithAck := e.st.largestWithAck, largestAcked := e.st.largestAcked)
    requires e.st.largestAcked <= st.lastSent
    ensures Departs(st, e)
  {
    LeaveNone(st.history);
  }

  lemma {:induction false} SettledBookkeeping(skipped: seq<nat>, sw: SW.State, lastSent: nat, ps: seq<Packet>)
    requires Bookkeeping(skipped, sw, lastSent) && Numbered(0, ps, lastSent)
    ensures Bookkeeping(skipped, sw.(next := Above(sw.next, ps)), lastSent)
  {
    NumberedBounds(0, ps, lastSent);
    AboveBounded(sw.next, ps, lastSent + 1);
  }

  lemma {:induction false} DetectLostDeparts(st: State, clock: Clock)
    requires Valid(st)
    ensures Departs(st, DetectLost(st, clock))
  {
    var lost := Lost(st.history, st.largestAcked, clock);
    LostAmong(0, st.history, st.lastSent, st.largestAcked, clock);
    AmongNumbered(0, st.history, st.lastSent, lost);
    SettledBookkeeping(st.skipped, st.stopWaiting, st.lastSent, lost);
    LeaveNone(st.history);
  }

  lemma {:induction false} InflightLostDeparts(st: State)
    requires Valid(st)
    ensures Departs(st, InflightLost(st))
  {
    var lost := UpTo(st.history, st.largestAcked);
    UpToAmong(0, st.history, st.lastSent, st.largestAcked);
    AmongNumbered(0, st.history, st.lastSent, lost);
    SettledBookkeeping(st.skipped, st.stopWaiting, st.lastSent, lost);
    LeaveNone(st.history);
  }

  lemma {:induction false} AcknowledgedValid(st: State, ps: seq<Packet>)
    requires Valid(st) && Among(ps, st.history)
    ensures Valid(Acknowledged(st, ps))
  {
    LeaveNumbered(0, st.history, st.lastSent, ps);
    LeaveBytes(st.history, ps);
  }

  lemma {:induction false} LeaveBytes(ps: seq<Packet>, chosen: seq<Packet>)
    requires Among(chosen, ps)
    ensures Bytes(ps) == Bytes(chosen) + Bytes(Leave(ps, chosen))
  {
    LeaveSplits(ps, chosen, Packet(0, [], 0, 0));
  }

  lemma {:induction false} CollectedBookkeeping(st: State)
    requires Bookkeeping(st.skipped, st.stopWaiting, st.lastSent)
    ensures Bookkeeping(Collected(st).skipped, st.stopWaiting, st.lastSent)
    ensures Fewer(Collected(st).skipped, st.skipped)
  {
    CollectKeepsAbove(0, st.skipped, st.lastSent, LargestInOrderAcked(st));
  }

  lemma {:induction false} AckMatchedDeparts(st: State, f: AckFrame, clock: Clock)
    requires Valid(st) && f.largest <= st.lastSent
    ensures Departs(st, AckMatched(st, f, clock))
  {
    var acked := Acked(st.history, f);
    AckedAmong(st.history, f);
    AcknowledgedValid(st, acked);
    var st1 := Acknowledged(st, acked);
    DetectLostDeparts(st1, clock);
    LeaveNone(st1.history);
    CollectedBookkeeping(DetectLost(st1, clock).st);
  }

  lemma {:induction false} AckDeparts(st: State, f: AckFrame, withNumber: nat, clock: Clock)
    requires Valid(st)
    ensures Departs(st, ReceivedAck(st, f, withNumber, clock))
  {
    var e := ReceivedAck(st, f, withNumber, clock);
    if e.outcome == Done && f.largest > LargestInOrderAcked(st) {
      var st2 := st.(largestWithAck := withNumber, largestAcked := f.largest);
      AckMatchedDeparts(st2, f, clock);
    } else {
      NothingDeparts(st, e);
    }
  }

  lemma {:induction false} CloseMatchedDeparts(st: State, f: AckFrame)
    requires Valid(st)
    ensures Departs(st, CloseMatched(st, f))
  {
    var acked := Acked(st.history, f);
    AckedAmong(st.history, f);
    AcknowledgedValid(st, acked);
    var st1 := Acknowledged(st, acked);
    InflightLostDeparts(st1);
    LeaveNone(st1.history);
    CollectedBookkeeping(InflightLost(st1).st);
  }

  lemma {:induction false} ClosePathDeparts(st: State, f: C.ClosePathFrame, withNumber: nat)
    requires Valid(st)
    ensures Departs(st, ReceivedClosePath(st, f, withNumber))
  {
    var e := ReceivedClosePath(st, f, withNumber);
    if e.outcome == Done {
      CloseMatchedDeparts(st.(largestWithAck := withNumber), f.Ack());
    } else {
      NothingDeparts(st, e);
    }
  }

  lemma {:induction false} AlarmDeparts(st: State, clock: Clock, potentiallyFailed: bool)
    requires Valid(st)
    ensures Departs(st, OnAlarm(st, clock, potentiallyFailed))
  {
    var e := OnAlarm(st, clock, potentiallyFailed);
    LeaveNone(st.history);
    if !HasOutstanding(st.history) {
      NothingDeparts(st, e);
    } else if st.lossTime.Some? {
      DetectLostDeparts(st, clock);
    } else {
      if st.tlpCount < MAX_TAIL_LOSS_PROBES {
        LastAmong(st.history);
      } else {
        PrefixAmong(st.history, |e.moved|);
        assert e.moved == st.history[..|e.moved|];
      }
      AmongNumbered(0, st.history, st.lastSent, e.moved);
      SettledBookkeeping(st.skipped, st.stopWaiting, st.lastSent, e.moved);
    }
  }

  lemma {:induction false} DepartsValid(st: State, e: Effect)
    requires Valid(st) && Departs(st, e)
    ensures Valid(e.st)
  {
    var h := Leave(st.history, e.acked);
    LeaveNumbered(0, st.history, st.lastSent, e.acked);
    LeaveNumbered(0, h, st.lastSent, e.moved);
    LeaveBytes(st.history, e.acked);
    LeaveBytes(h, e.moved);
  }

  /** The packet that a call to `Sent` starts to track, if any. */
  function Entered(st: State, number: nat, frames: seq<FrameKind>, length: nat, now: int): seq<Packet> {
    if Sent(st, number, frames, length, now).1 == Done && Strip(frames) != []
    then [Packet(number, Strip(frames), length, now)] else []
  }

  lemma {:induction false} SentEffect(st: State, number: nat, frames: seq<FrameKind>, length: nat, now: int)
    ensures var st', entered := Sent(st, number, frames, length, now).0, Entered(st, number, frames, length, now);
      && st'.history == st.history + entered
      && st'.bytesInFlight == st.bytesInFlight + Bytes(entered)
      && st'.sentBytes == st.sentBytes + Bytes(entered)
      && st'.ackedBytes == st.ackedBytes
      && st.lastSent <= st'.lastSent
  {
    assert st.history + [] == st.history;
  }

  lemma {:induction false} NumberedEntered(
    ps: seq<Packet>, st: State, number: nat, frames: seq<FrameKind>, length: nat, now: int)
    requires Numbered(0, ps, st.lastSent)
    ensures Numbered(0, ps + Entered(st, number, frames, length, now), Sent(st, number, frames, length, now).0.lastSent)
  {
    var st', entered := Sent(st, number, frames, length, now).0, Entered(st, number, frames, length, now);
    if entered == [] {
      assert ps + entered == ps;
      NumberedWider(0, ps, st.lastSent, 0, st'.lastSent);
    } else {
      NumberedPush(0, ps, st.lastSent, entered[0]);
    }
  }

  lemma {:induction false} SentValid(st: State, number: nat, frames: seq<FrameKind>, length: nat, now: int)
    requires Valid(st)
    ensures Valid(Sent(st, number, frames, length, now).0)
    ensures var skipped := Sent(st, number, frames, length, now).0.skipped;
      forall n :: n in skipped ==> n in st.skipped || st.lastSent < n < number
  {
    SentEffect(st, number, frames, length, now);
    NumberedEntered(st.history, st, number, frames, length, now);
    BytesAppend(st.history, Entered(st, number, frames, length, now));
    var (st', outcome) := Sent(st, number, frames, length, now);
    if outcome == Done {
      AddSkippedClimbs(st.skipped, 0, st.lastSent, number);
      ClimbingWider(0, st'.skipped, number - 1, 0, number);
    }
  }

  // ----- The books -----

  /** All packets ever tracked, and those that have left since, in the order in which they left. */
  datatype Ledger = Ledger(entered: seq<Packet>, acked: seq<Packet>, moved: seq<Packet>)

  const EMPTY := Ledger([], [], [])

  /**
    The books balance for packet `p`: it entered as often as it is now in flight, acknowledged, or was queued
    for retransmission. The bytes balance likewise.
   */
  ghost predicate Balanced(st: State, l: Ledger, p: Packet) {
    && Numbered(0, l.entered, st.lastSent)
    && Count(l.entered, p) == Count(st.history, p) + Count(l.acked, p) + Count(l.moved, p)
    && st.sentBytes == Bytes(st.history) + Bytes(l.acked) + Bytes(l.moved)
    && st.sentBytes == Bytes(l.entered)
    && st.ackedBytes == Bytes(l.acked)
  }

  function Record(l: Ledger, e: Effect): Ledger {
    Ledger(l.entered, l.acked + e.acked, l.moved + e.moved)
  }

  lemma {:induction false} DepartsBalanced(st: State, e: Effect, l: Ledger, p: Packet)
    requires Balanced(st, l, p) && Departs(st, e)
    ensures Balanced(e.st, Record(l, e), p)
  {
    LeaveSplits(st.history, e.acked, p);
    LeaveSplits(Leave(st.history, e.acked), e.moved, p);
    BytesAppend(l.acked, e.acked);
    BytesAppend(l.moved, e.moved);
    CountAppend(l.acked, e.acked, p);
    CountAppend(l.moved, e.moved, p);
  }

  lemma {:induction false} SentBalanced(
    st: State, number: nat, frames: seq<FrameKind>, length: nat, now: int, l: Ledger, p: Packet)
    requires Balanced(st, l, p)
    ensures Balanced(Sent(st, number, frames, length, now).0,
      l.(entered := l.entered + Entered(st, number, frames, length, now)), p)
  {
    var entered := Entered(st, number, frames, length, now);
    SentEffect(st, number, frames, length, now);
    NumberedEntered(l.entered, st, number, frames, length, now);
    BytesAppend(st.history, entered);
    BytesAppend(l.entered, entered);
    CountAppend(st.history, entered, p);
    CountAppend(l.entered, entered, p);
  }

  // ----- Whole runs -----

  datatype Step =
    | Send(number: nat, frames: seq<FrameKind>, length: nat, now: int)
    | Acknowledge(ack: AckFrame, withNumber: nat, clock: Clock)
    | Close(close: C.ClosePathFrame, withNumber: nat)
    | Alarm(clock: Clock, potentiallyFailed: bool)
    | Dequeue
    | Duplicate(packet: Packet)
    | EmitStopWaiting(force: bool)

  function Apply(st: State, l: Ledger, step: Step): (State, Ledger) {
    match step
    case Send(number, frames, length, now) =>
      (Sent(st, number, frames, length, now).0, l.(entered := l.entered + Entered(st, number, frames, length, now)))
    case Acknowledge(ack, withNumber, clock) =>
      var e := ReceivedAck(st, ack, withNumber, clock);
      (e.st, Record(l, e))
    case Close(close, withNumber) =>
      var e := ReceivedClosePath(st, close, withNumber);
      (e.st, Record(l, e))
    case Alarm(clock, potentiallyFailed) =>
      var e := OnAlarm(st, clock, potentiallyFailed);
      (e.st, Record(l, e))
    case Dequeue => (Dequeued(st).0, l)
    case Duplicate(packet) => (Duplicated(st, packet), l)
    case EmitStopWaiting(force) => (GetStopWaiting(st, force).0, l)
  }

  function Run(st: State, l: Ledger, steps: seq<Step>): (State, Ledger)
    decreases |steps|
  {
    if steps == [] then (st, l)
    else
      var (st', l') := Apply(st, l, steps[0]);
      Run(st', l', steps[1..])
  }

  lemma {:induction false} EffectKeeps(st: State, e: Effect, l: Ledger, p: Packet)
    requires Valid(st) && Balanced(st, l, p) && Departs(st, e)
    ensures Valid(e.st) && Balanced(e.st, Record(l, e), p)
  {
    DepartsValid(st, e);
    DepartsBalanced(st, e, l, p);
  }

  lemma {:induction false} ApplyKeeps(st: State, l: Ledger, step: Step, p: Packet)
    requires Valid(st) && Balanced(st, l, p)
    ensures var (st', l') := Apply(st, l, step); Valid(st') && Balanced(st', l', p)
  {
    match step
    case Send(number, frames, length, now) =>
      SentValid(st, number, frames, length, now);
      SentBalanced(st, number, frames, length, now, l, p);
    case Acknowledge(ack, withNumber, clock) =>
      AckDeparts(st, ack, withNumber, clock);
      EffectKeeps(st, ReceivedAck(st, ack, withNumber, clock), l, p);
    case Close(close, withNumber) =>
      ClosePathDeparts(st, close, withNumber);
      EffectKeeps(st, ReceivedClosePath(st, close, withNumber), l, p);
    case Alarm(clock, potentiallyFailed) =>
      AlarmDeparts(st, clock, potentiallyFailed);
      EffectKeeps(st, OnAlarm(st, clock, potentiallyFailed), l, p);
    case EmitStopWaiting(force) =>
      SW.FrameInRange(st.stopWaiting, force, st.lastSent);
    case Dequeue =>
    case Duplicate(_) =>
  }

  lemma {:induction false} RunKeeps(st: State, l: Ledger, steps: seq<Step>, p: Packet)
    requires Valid(st) && Balanced(st, l, p)
    ensures var (st', l') := Run(st, l, steps); Valid(st') && Balanced(st', l', p)
    decreases |steps|
  {
    if steps != [] {
      ApplyKeeps(st, l, steps[0], p);
      var (st', l') := Apply(st, l, steps[0]);
      RunKeeps(st', l', steps[1..], p);
    }
  }

  /**
    Over every run of the handler, whatever frames arrive: the bytes in flight are those of the tracked
    packets, bytes sent are bytes acknowledged, in flight or moved to retransmission, and every packet ever
    tracked is in exactly one of these places, once.
   */
  lemma {:induction false} Conservation(steps: seq<Step>, p: Packet)
    ensures var (st, l) := Run(INIT, EMPTY, steps);
      && Numbered(0, st.history, st.lastSent)
      && st.bytesInFlight == Bytes(st.history)
      && st.sentBytes == st.ackedBytes + st.bytesInFlight + Bytes(l.moved)
      && (p in l.entered ==> Count(st.history, p) + Count(l.acked, p) + Count(l.moved, p) == 1)
      && (p !in l.entered ==> p !in st.history && p !in l.acked && p !in l.moved)
  {
    RunKeeps(INIT, EMPTY, steps, p);
    var (st, l) := Run(INIT, EMPTY, steps);
    NumberedOnce(0, l.entered, st.lastSent, p);
    CountPositive(l.entered, p);
    CountPositive(st.history, p);
    CountPositive(l.acked, p);
    CountPositive(l.moved, p);
  }

  /** Over every run, a STOP_WAITING frame names a number from 1 to one past the last packet sent. */
  lemma {:induction false} StopWaitingInRange(steps: seq<Step>, force: bool)
    ensures var st := Run(INIT, EMPTY, steps).0;
      var frame := GetStopWaiting(st, force).1;
      frame.Some? ==> 1 <= frame.value <= st.lastSent + 1
  {
    RunKeeps(INIT, EMPTY, steps, Packet(0, [], 0, 0));
    var st := Run(INIT, EMPTY, steps).0;
    SW.FrameInRange(st.stopWaiting, force, st.lastSent);
  }

  // ----- The loops of the handler -----

  method TrackSkipped(skipped: seq<nat>, first: nat, end: nat) returns (r: seq<nat>)
    ensures r == AddSkipped(skipped, first, end)
  {
    r := skipped;
    var p := first;
    while p < end
      invariant AddSkipped(r, p, end) == AddSkipped(skipped, first, end)
    {
      r := r + [p];
      if |r| > MAX_TRACKED_SKIPPED {
        r := r[1..];
      }
      p := p + 1;
    }
  }

  method StripNonRetransmittable(frames: seq<FrameKind>) returns (r: seq<FrameKind>)
    ensures r == Strip(frames)
  {
    r := [];
    var rest := frames;
    while rest != []
      invariant r + Strip(rest) == Strip(frames)
      decreases |rest|
    {
      StripStep(r, rest);
      if IsFrameRetransmittable(rest[0]) {
        r := r + [rest[0]];
      }
      rest := rest[1..];
    }
    assert r + [] == r;
  }

  lemma {:induction false} StripStep(r: seq<FrameKind>, rest: seq<FrameKind>)
    requires rest != []
    ensures r + Strip(rest) == (if IsFrameRetransmittable(rest[0]) then r + [rest[0]] else r) + Strip(rest[1..])
  {
  }

  method FindLost(ps: seq<Packet>, largestAcked: nat, clock: Clock) returns (lost: seq<Packet>, lossTime: Option<int>)
    ensures lost == Lost(ps, largestAcked, clock) && lossTime == NextLoss(ps, largestAcked, clock)
  {
    lost, lossTime := [], None;
    var rest := ps;
    while rest != [] && rest[0].number <= largestAcked
      invariant lost + Lost(rest, largestAcked, clock) == Lost(ps, largestAcked, clock)
      invariant NextLoss(ps, largestAcked, clock)
        == if lossTime.None? then NextLoss(rest, largestAcked, clock) else lossTime
      decreases |rest|
    {
      var p := rest[0];
      LostStep(lost, rest, largestAcked, clock);
      var timeSinceSent := clock.now - p.sendTime;
      if timeSinceSent > DelayUntilLost(clock) {
        lost := lost + [p];
      } else if lossTime.None? {
        lossTime := Some(clock.now + (DelayUntilLost(clock) - timeSinceSent));
      }
      rest := rest[1..];
    }
    assert lost + [] == lost;
  }

  lemma {:induction false} LostStep(lost: seq<Packet>, rest: seq<Packet>, largestAcked: nat, clock: Clock)
    requires rest != [] && rest[0].number <= largestAcked
    ensures lost + Lost(rest, largestAcked, clock)
      == (if Overdue(rest[0], clock) then lost + [rest[0]] else lost) + Lost(rest[1..], largestAcked, clock)
  {
    var tail := Lost(rest[1..], largestAcked, clock);
    if Overdue(rest[0], clock) {
      Associate(lost, [rest[0]], tail);
    } else {
      assert Lost(rest, largestAcked, clock) == tail;
    }
  }

  method FindInflight(ps: seq<Packet>, largestAcked: nat) returns (lost: seq<Packet>)
    ensures lost == UpTo(ps, largestAcked)
  {
    lost := [];
    var rest := ps;
    while rest != [] && rest[0].number <= largestAcked
      invariant lost + UpTo(rest, largestAcked) == UpTo(ps, largestAcked)
      decreases |rest|
    {
      assert lost + UpTo(rest, largestAcked) == lost + [rest[0]] + UpTo(rest[1..], largestAcked);
      lost := lost + [rest[0]];
      rest := rest[1..];
    }
    assert lost + [] == lost;
  }

  method AnySkippedAcked(skipped: seq<nat>, f: AckFrame) returns (r: bool)
    ensures r <==> SkippedAcked(skipped, f)
  {
    for i := 0 to |skipped|
      invariant forall j :: 0 <= j < i ==> !AcksPacket(f, skipped[j])
    {
      if AcksPacket(f, skipped[i]) {
        return true;
      }
    }
    r := false;
  }

  method AnyOutstanding(ps: seq<Packet>) returns (r: bool)
    ensures r <==> HasOutstanding(ps)
  {
    for i := 0 to |ps|
      invariant forall j :: 0 <= j < i ==> !ps[j].IsRetransmittable()
    {
      if ps[i].IsRetransmittable() {
        return true;
      }
    }
    r := false;
  }

  method GarbageCollect(skipped: seq<nat>, acked: int) returns (r: seq<nat>)
    ensures r == Collect(skipped, acked)
  {
    var deleteIndex := 0;
    for i := 0 to |skipped|
      invariant deleteIndex <= i
      invariant deleteIndex > 0 ==> skipped[deleteIndex - 1] <= acked
      invariant forall j :: deleteIndex <= j < i ==> skipped[j] > acked
    {
      if skipped[i] <= acked {
        deleteIndex := i + 1;
      }
    }
    CollectAt(skipped, acked, deleteIndex);
    r := skipped[deleteIndex..];
  }

  lemma {:induction false} CollectAt(skipped: seq<nat>, acked: int, k: nat)
    requires k <= |skipped| && (k > 0 ==> skipped[k - 1] <= acked)
    requires forall j :: k <= j < |skipped| ==> skipped[j] > acked
    ensures Collect(skipped, acked) == skipped[k..]
  {
    if k > 0 {
      assert skipped[k - 1] in skipped;
      CollectAt(skipped[1..], acked, k - 1);
    }
  }

  // ----- The handler as an object -----

  class Handler {
    var lastSent: nat
    var skipped: seq<nat>
    var nonRetransmittable: nat
    var largestAcked: nat
    var largestWithAck: nat
    var history: seq<Packet>
    var queue: seq<Packet>
    var bytesInFlight: int
    var ackedBytes: int
    var sentBytes: int
    var rtoCount: nat
    var tlpCount: nat
    var lossTime: Option<int>
    var packets: nat
    var retransmissions: nat
    var losses: nat
    const stopWaiting: SW.Manager

    ghost function Contents(): State
      reads this, stopWaiting
    {
      State(lastSent, skipped, nonRetransmittable, largestAcked, largestWithAck, history, queue, bytesInFlight,
        ackedBytes, sentBytes, rtoCount, tlpCount, lossTime, packets, retransmissions, losses, stopWaiting.Contents())
    }

    constructor ()
      ensures Contents() == INIT && fresh(stopWaiting)
    {
      lastSent, skipped, nonRetransmittable, largestAcked, largestWithAck := 0, [], 0, 0, 0;
      history, queue, bytesInFlight, ackedBytes, sentBytes := [], [], 0, 0, 0;
      rtoCount, tlpCount, lossTime, packets, retransmissions, losses := 0, 0, None, 0, 0, 0;
      stopWaiting := new SW.Manager();
    }

    method SentPacket(number: nat, frames: seq<FrameKind>, length: nat, now: int) returns (r: Outcome)
      modifies this
      ensures (Contents(), r) == Sent(old(Contents()), number, frames, length, now)
    {
      if number <= lastSent {
        return NotIncreasing;
      }
      if |queue| + |history| + 1 > MAX_TRACKED_SENT {
        return TooManyTracked;
      }
      skipped := TrackSkipped(skipped, lastSent + 1, number);
      lastSent := number;
      packets := packets + 1;
      var kept := StripNonRetransmittable(frames);
      Track(Packet(number, kept, length, now));
      r := Done;
    }

    method Track(p: Packet)
      modifies this
      ensures Contents() == Tracked(old(Contents()), p)
    {
      if p.frames != [] {
        bytesInFlight := bytesInFlight + p.length;
        sentBytes := sentBytes + p.length;
        history := history + [p];
        nonRetransmittable := 0;
      } else {
        nonRetransmittable := nonRetransmittable + 1;
      }
    }

    method OnPacketAcked(p: Packet)
      modifies this
      ensures Contents() == AckOne(old(Contents()), p)
    {
      bytesInFlight := bytesInFlight - p.length;
      rtoCount := 0;
      tlpCount := 0;
      history := Without(history, p.number);
      ackedBytes := ackedBytes + p.length;
    }

    method OnPacketsAcked(ps: seq<Packet>)
      requires Valid(Contents()) && Among(ps, history)
      modifies this
      ensures Contents() == Acknowledged(old(Contents()), ps)
    {
      AckAllEffect(Contents(), ps);
      var rest := ps;
      while rest != []
        invariant AckAll(Contents(), rest) == AckAll(old(Contents()), ps)
        decreases |rest|
      {
        OnPacketAcked(rest[0]);
        rest := rest[1..];
      }
    }

    method QueuePacketForRetransmission(p: Packet)
      modifies this, stopWaiting
      ensures Contents() == QueueOne(old(Contents()), p)
    {
      bytesInFlight := bytesInFlight - p.length;
      queue := queue + [p];
      history := Without(history, p.number);
      stopWaiting.QueuedRetransmissionForPacketNumber(p.number);
    }

    method QueuePackets(ps: seq<Packet>)
      requires Valid(Contents()) && Among(ps, history)
      modifies this, stopWaiting
      ensures Contents() == Queued(old(Contents()), ps, 0)
    {
      QueueAllEffect(Contents(), ps);
      var rest := ps;
      while rest != []
        invariant QueueAll(Contents(), rest) == QueueAll(old(Contents()), ps)
        decreases |rest|
      {
        QueuePacketForRetransmission(rest[0]);
        rest := rest[1..];
      }
    }

    method DetectLostPackets(clock: Clock)
      requires Valid(Contents())
      modifies this, stopWaiting
      ensures Contents() == DetectLost(old(Contents()), clock).st
    {
      LostAmong(0, history, lastSent, largestAcked, clock);
      var lost, next := FindLost(history, largestAcked, clock);
      lossTime := next;
      losses := losses + |lost|;
      QueuePackets(lost);
    }

    method SetInflightAsLost()
      requires Valid(Contents())
      modifies this, stopWaiting
      ensures Contents() == InflightLost(old(Contents())).st
    {
      UpToAmong(0, history, lastSent, largestAcked);
      var lost := FindInflight(history, largestAcked);
      losses := losses + |lost|;
      QueuePackets(lost);
    }

    method GarbageCollectSkippedPackets()
      modifies this
      ensures Contents() == Collected(old(Contents()))
    {
      var acked: int := if history == [] then largestAcked else history[0].number - 1;
      skipped := GarbageCollect(skipped, acked);
    }

    method ReceiveAck(f: AckFrame, withNumber: nat, clock: Clock) returns (r: Outcome)
      requires Valid(Contents()) && Sound(f)
      modifies this, stopWaiting
      ensures var e := ReceivedAck(old(Contents()), f, withNumber, clock); Contents() == e.st && r == e.outcome
    {
      if f.largest > lastSent {
        return AckForUnsent;
      }
      if withNumber <= largestWithAck {
        return DuplicateAck;
      }
      largestWithAck := withNumber;
      var inOrder: int := if history == [] then largestAcked else history[0].number - 1;
      if f.largest <= inOrder {
        return Done;
      }
      largestAcked := f.largest;
      var forSkipped := AnySkippedAcked(skipped, f);
      if forSkipped {
        return AckForSkipped;
      }
      r := MatchAck(f, clock);
    }

    method MatchAck(f: AckFrame, clock: Clock) returns (r: Outcome)
      requires Valid(Contents()) && Sound(f)
      modifies this, stopWaiting
      ensures var e := AckMatched(old(Contents()), f, clock); Contents() == e.st && r == e.outcome
    {
      var acked := DetermineNewlyAcked(history, f, 0, lastSent);
      if acked.None? {
        return WrongRange;
      }
      AckedAmong(history, f);
      AcknowledgedValid(Contents(), acked.value);
      OnPacketsAcked(acked.value);
      DetectLostPackets(clock);
      GarbageCollectSkippedPackets();
      stopWaiting.ReceivedAck(f.largest);
      r := Done;
    }

    method ReceiveClosePath(f: C.ClosePathFrame, withNumber: nat) returns (r: Outcome)
      requires Valid(Contents()) && Sound(f.Ack())
      modifies this, stopWaiting
      ensures var e := ReceivedClosePath(old(Contents()), f, withNumber); Contents() == e.st && r == e.outcome
    {
      if f.largest > lastSent {
        return AckForUnsent;
      }
      if withNumber <= largestWithAck {
        return DuplicateAck;
      }
      largestWithAck := withNumber;
      var forSkipped := AnySkippedAcked(skipped, f.Ack());
      if forSkipped {
        return AckForSkipped;
      }
      r := MatchClose(f.Ack());
    }

    method MatchClose(f: AckFrame) returns (r: Outcome)
      requires Valid(Contents()) && Sound(f)
      modifies this, stopWaiting
      ensures var e := CloseMatched(old(Contents()), f); Contents() == e.st && r == e.outcome
    {
      var acked := DetermineNewlyAcked(history, f, 0, lastSent);
      if acked.None? {
        return WrongRange;
      }
      AckedAmong(history, f);
      AcknowledgedValid(Contents(), acked.value);
      OnPacketsAcked(acked.value);
      SetInflightAsLost();
      GarbageCollectSkippedPackets();
      r := Done;
    }

    method Alarmed(clock: Clock, potentiallyFailed: bool)
      requires Valid(Contents())
      modifies this, stopWaiting
      ensures Contents() == OnAlarm(old(Contents()), clock, potentiallyFailed).st
    {
      var outstanding := AnyOutstanding(history);
      if !outstanding {
        return;
      }
      if lossTime.Some? {
        DetectLostPackets(clock);
      } else if tlpCount < MAX_TAIL_LOSS_PROBES {
        LastAmong(history);
        QueuePackets([history[|history| - 1]]);
        tlpCount := tlpCount + 1;
      } else {
        var timedOut := if potentiallyFailed then history else OldestTwo(history);
        TimeOut(timedOut);
      }
    }

    method TimeOut(timedOut: seq<Packet>)
      requires Valid(Contents()) && timedOut <= history
      modifies this, stopWaiting
      ensures var st := Queued(old(Contents()), timedOut, |timedOut|); Contents() == st.(rtoCount := st.rtoCount + 1)
    {
      PrefixAmong(history, |timedOut|);
      assert timedOut == history[..|timedOut|];
      losses := losses + |timedOut|;
      QueuePackets(timedOut);
      rtoCount := rtoCount + 1;
    }

    method DequeuePacketForRetransmission() returns (r: Option<Packet>)
      modifies this
      ensures (Contents(), r) == Dequeued(old(Contents()))
    {
      if queue == [] {
        return None;
      }
      r := Some(queue[0]);
      queue := queue[1..];
      retransmissions := retransmissions + 1;
    }

    method DuplicatePacket(p: Packet)
      modifies this
      ensures Contents() == Duplicated(old(Contents()), p)
    {
      queue := queue + [p];
    }

    method GetStopWaitingFrame(force: bool) returns (r: Option<nat>)
      modifies stopWaiting
      ensures (Contents(), r) == GetStopWaiting(old(Contents()), force)
    {
      r := stopWaiting.GetStopWaitingFrame(force);
    }
  }
}
