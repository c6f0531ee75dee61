/**
  A run in which a client loses data for good (quic-go/scheduler.go, getRetransmission): a byte sent before
  encryption was forward-secure is lost on its way, and its packet is dropped because the handshake has completed.
 */
module DroppedDataRun {
  import opened Basics
  import opened StreamFrames
  import opened SentPackets
  import opened SentFrames
  import opened Retransmission
  import DS = DeliverySteps
  import F = StreamFramer
  import H = SentPacketHandler
  import RS = RetransmissionSafety
  import W = SendStream

  // ----- Steps, one after the other -----

  ghost predicate Goes(s: System, step: Step, next: System) {
    Inv(s) && Inv(next) && Apply(s, step) == next
  }

  ghost predicate Leads(s: System, steps: seq<Step>, end: System) {
    Inv(s) && Run(s, steps) == end
  }

  lemma {:induction false} LeadsOnce(s: System, step: Step, next: System)
    requires Goes(s, step, next)
    ensures Leads(s, [step], next)
  {
    assert [step][1..] == [];
  }

  lemma {:induction false} LeadsCons(s: System, step: Step, next: System, steps: seq<Step>, end: System)
    requires Goes(s, step, next) && Leads(next, steps, end)
    ensures Leads(s, [step] + steps, end)
  {
    assert ([step] + steps)[1..] == steps;
  }

  // ----- The run -----

  const WINDOWS := DS.OpenedFramer([], false).fc

  /** One path, on which one packet was sent, with what is left of it. */
  function PathWith(handler: H.State, f: StreamFrame): Path {
    Path(handler, map[1 := Sent([0], [f], Secure)], {})
  }

  function TheFrame(x: byte): StreamFrame {
    StreamFrame(5, false, false, 0, [x])
  }

  /** The only frame was sent once, and is not queued at the framer. */
  ghost predicate SentOnce(s: System, x: byte, handler: H.State) {
    && Inv(s) && !s.halted && s.client
    && s.framer.store == [TheFrame(x)] && s.framer.queue == [] && s.contents == map[5 := [x]]
    && s.paths == map[0 := PathWith(handler, TheFrame(x))]
  }

  function ThePacket(length: nat, now: int): Packet {
    Packet(1, [Stream], length, now)
  }

  /** The handler of the path once the packet is sent. */
  function HandlerWith(length: nat, now: int): H.State {
    H.Sent(H.INIT, 1, [Stream], length, now).0
  }

  lemma {:induction false} HandlerHolds(length: nat, now: int)
    ensures var h := HandlerWith(length, now);
      && H.Sent(H.INIT, 1, [Stream], length, now).1 == H.Done
      && h.history == [ThePacket(length, now)] && h.queue == [] && h.lossTime.None? && h.tlpCount == 0
  {
    assert Strip([Stream]) == [Stream] by {
      assert [Stream][1..] == [] && [Stream] + [] == [Stream];
    }
    assert [] + [ThePacket(length, now)] == [ThePacket(length, now)];
  }

  /** A path, a stream, and data waiting to be sent. */
  function Written(x: byte): System {
    System(true, DS.OpenedFramer([x], false), map[5 := []], map[0 := NEW_PATH], false, false)
  }

  lemma {:induction false} Starts(x: byte) returns (s1: System, s2: System)
    ensures Goes(Init(true, WINDOWS), OpenPath(0), s1) && Goes(s1, OpenStream(5), s2)
    ensures Goes(s2, WriteData(5, [x]), Written(x))
  {
    var s0 := Init(true, WINDOWS);
    InitOk(true, WINDOWS);
    s1 := Apply(s0, OpenPath(0));
    ApplyOk(s0, OpenPath(0));
    s2 := Apply(s1, OpenStream(5));
    ApplyOk(s1, OpenStream(5));
    ApplyOk(s2, WriteData(5, [x]));
    assert s2.framer.writers[5 := W.Write(W.INIT, [x]).0] == map[5 := W.State(0, Some([x]), false, false, false)];
  }

  function SendStep(length: nat, now: int): Step {
    SendData(0, Secure, [], [5], 102, DS.NEGOTIATED, Stamp(1, length, now))
  }

  /** What the first packet holds. */
  lemma {:induction false} FirstComposed(x: byte, length: nat, now: int)
    requires Inv(Written(x))
    ensures var (framer, ids) := Composed(Written(x), SendStep(length, now));
      framer.store == [TheFrame(x)] && framer.queue == [] && ids == [0]
    ensures ComposedContents(Written(x), SendStep(length, now)) == map[5 := [x]]
  {
    DS.FirstComposed([x], false);
    DS.FirstContents([x], false);
  }

  lemma {:induction false} SendsAs(s: System, step: Step, framer: F.State, ids: seq<nat>, contents: F.Contents)
    requires Inv(s) && !s.halted && step.SendData? && step.path in s.paths && ids != []
    requires Composed(s, step) == (framer, ids) && ComposedContents(s, step) == contents
    ensures Apply(s, step) == Tracked(
      s.(framer := framer, contents := contents), step.path, step.controls + StreamKinds(|ids|),
      Sent(ids, F.Frames(framer.store, ids), step.level), step.stamp)
  {
  }

  lemma {:induction false} TracksAs(s: System, f: StreamFrame, length: nat, now: int)
    requires s.paths == map[0 := NEW_PATH]
    ensures Tracked(s, 0, [Stream], Sent([0], [f], Secure), Stamp(1, length, now))
      == s.(paths := map[0 := PathWith(HandlerWith(length, now), f)])
  {
    HandlerHolds(length, now);
  }

  lemma {:induction false} OneName(f: StreamFrame)
    ensures F.Frames([f], [0]) == [f] && [] + StreamKinds(|[0]|) == [Stream]
  {
    assert [0][1..] == [] && StreamKinds(0) == [];
  }

  /** The byte is sent with encryption that is not forward-secure. */
  lemma {:induction false} Sends(x: byte, length: nat, now: int) returns (next: System)
    requires Inv(Written(x))
    ensures Goes(Written(x), SendStep(length, now), next) && SentOnce(next, x, HandlerWith(length, now))
    ensures !next.handshakeComplete
  {
    var s, step := Written(x), SendStep(length, now);
    next := Apply(s, step);
    ApplyOk(s, step);
    var framer, contents := Composed(s, step).0, map[5 := [x]];
    var s' := s.(framer := framer, contents := contents);
    assert framer.store == [TheFrame(x)] && framer.queue == [] by {
      FirstComposed(x, length, now);
    }
    assert next == Tracked(s', 0, [Stream], Sent([0], [TheFrame(x)], Secure), Stamp(1, length, now)) by {
      FirstComposed(x, length, now);
      OneName(TheFrame(x));
      SendsAs(s, step, framer, [0], contents);
    }
    TracksAs(s', TheFrame(x), length, now);
  }

  lemma {:induction false} Completes(s: System, x: byte, handler: H.State) returns (next: System)
    requires SentOnce(s, x, handler)
    ensures Goes(s, CompleteHandshake, next) && SentOnce(next, x, handler) && next.handshakeComplete
  {
    next := Apply(s, CompleteHandshake);
    ApplyOk(s, CompleteHandshake);
  }

  /** The handler once the alarm has fired: the packet is to be sent again as a probe. */
  function HandlerAfter(h: H.State, clock: H.Clock): H.State {
    H.OnAlarm(h, clock, false).st
  }

  lemma {:induction false} ProbeQueued(h: H.State, clock: H.Clock, p: Packet)
    requires h.history == [p] && h.queue == [] && h.lossTime.None? && h.tlpCount == 0 && p.IsRetransmittable()
    ensures var e := H.OnAlarm(h, clock, false);
      e.outcome == H.Done && e.acked == [] && e.st.history == [] && e.st.queue == [p]
  {
    assert p in h.history;
    assert Leave([p], [p]) == [];
    assert [] + [p] == [p];
  }

  lemma {:induction false} ProbesAs(s: System, f: StreamFrame, h: H.State, clock: H.Clock)
    requires s.paths == map[0 := PathWith(h, f)] && H.OnAlarm(h, clock, false).outcome == H.Done
    requires H.OnAlarm(h, clock, false).acked == []
    ensures ApplyOutside(s, Alarm(0, clock, false)) == s.(paths := map[0 := PathWith(HandlerAfter(h, clock), f)])
  {
    var e := H.OnAlarm(h, clock, false);
    assert OnEffect(PathWith(h, f), e) == PathWith(HandlerAfter(h, clock), f);
  }

  lemma {:induction false} Probes(s: System, x: byte, h: H.State, clock: H.Clock) returns (next: System)
    requires SentOnce(s, x, h) && s.handshakeComplete
    requires H.OnAlarm(h, clock, false).outcome == H.Done && H.OnAlarm(h, clock, false).acked == []
    ensures Goes(s, Alarm(0, clock, false), next) && next.handshakeComplete
    ensures SentOnce(next, x, HandlerAfter(h, clock))
  {
    next := Apply(s, Alarm(0, clock, false));
    ApplyOk(s, Alarm(0, clock, false));
    ProbesAs(s, TheFrame(x), h, clock);
  }

  /** Nothing is left that would send the byte again, and it was never acknowledged. */
  ghost predicate Gone(s: System) {
    && !s.halted && RS.Settled(s) && 5 in s.contents && |s.contents[5]| == 1
    && !RS.ByteSafe(s, 5, 0) && !RS.Confirmed(s, 5, 0)
  }

  lemma {:induction false} NobodyAnswers(s: System, x: byte, h: H.State)
    requires SentOnce(s, x, h) && h.history == [] && h.queue == []
    ensures Gone(s)
  {
    forall name: nat ensures !Safe(s, name, 5, 0) {
      forall path | path in s.paths ensures !Answers(s.paths[path], name, 5, 0) {
        assert s.paths[path].acked == {};
      }
    }
  }

  lemma {:induction false} DropsAs(s: System, f: StreamFrame, h: H.State, p: Packet, stamp: Stamp)
    requires s.paths == map[0 := PathWith(h, f)] && s.handshakeComplete && h.queue == [p] && p.number == 1
    requires |s.framer.store| == 1
    ensures Ready(s, 0) && F.Refers(NextSent(s, 0).names, |s.framer.store|)
    ensures DoRetransmit(s, Retransmit(0, Some(0), stamp)) == s.(paths := map[0 := PathWith(H.Dequeued(h).0, f)])
  {
    assert [0][1..] == [];
  }

  lemma {:induction false} Forgets(s: System, x: byte, h: H.State, p: Packet, stamp: Stamp) returns (next: System)
    requires SentOnce(s, x, h) && s.handshakeComplete && h.history == [] && h.queue == [p] && p.number == 1
    ensures Goes(s, Retransmit(0, Some(0), stamp), next) && Gone(next)
  {
    var step := Retransmit(0, Some(0), stamp);
    next := Apply(s, step);
    ApplyOk(s, step);
    DropsAs(s, TheFrame(x), h, p, stamp);
    assert [p][1..] == [];
    NobodyAnswers(next, x, H.Dequeued(h).0);
  }

  function LaterSteps(length: nat, now: int, clock: H.Clock, stamp: Stamp): seq<Step> {
    [SendStep(length, now), CompleteHandshake, Alarm(0, clock, false)] + [Retransmit(0, Some(0), stamp)]
  }

  function Steps(x: byte, length: nat, now: int, clock: H.Clock, stamp: Stamp): seq<Step> {
    [OpenPath(0), OpenStream(5), WriteData(5, [x])] + LaterSteps(length, now, clock, stamp)
  }

  lemma {:induction false} Chain(
    s0: System, a: Step, s1: System, b: Step, s2: System, c: Step, s3: System, steps: seq<Step>, end: System)
    requires Goes(s0, a, s1) && Goes(s1, b, s2) && Goes(s2, c, s3) && Leads(s3, steps, end)
    ensures Leads(s0, [a, b, c] + steps, end)
  {
    LeadsCons(s2, c, s3, steps, end);
    LeadsCons(s1, b, s2, [c] + steps, end);
    LeadsCons(s0, a, s1, [b] + ([c] + steps), end);
    assert [a] + ([b] + ([c] + steps)) == [a, b, c] + steps;
  }

  lemma {:induction false} SentAndLost(x: byte, length: nat, now: int, clock: H.Clock)
    returns (s1: System, s2: System, s3: System)
    requires Inv(Written(x))
    ensures Goes(Written(x), SendStep(length, now), s1) && Goes(s1, CompleteHandshake, s2)
    ensures Goes(s2, Alarm(0, clock, false), s3) && s3.handshakeComplete
    ensures SentOnce(s3, x, HandlerAfter(HandlerWith(length, now), clock))
  {
    var h, p := HandlerWith(length, now), ThePacket(length, now);
    s1 := Sends(x, length, now);
    s2 := Completes(s1, x, h);
    assert H.OnAlarm(h, clock, false).outcome == H.Done && H.OnAlarm(h, clock, false).acked == [] by {
      HandlerHolds(length, now);
      assert Stream in p.frames;
      ProbeQueued(h, clock, p);
    }
    s3 := Probes(s2, x, h, clock);
  }

  lemma {:induction false} QueuedAgain(length: nat, now: int, clock: H.Clock)
    ensures var h := HandlerAfter(HandlerWith(length, now), clock);
      h.history == [] && h.queue == [ThePacket(length, now)]
  {
    HandlerHolds(length, now);
    assert Stream in ThePacket(length, now).frames;
    ProbeQueued(HandlerWith(length, now), clock, ThePacket(length, now));
  }

  lemma {:induction false} LastStep(s: System, x: byte, length: nat, now: int, clock: H.Clock, stamp: Stamp)
    returns (end: System)
    requires SentOnce(s, x, HandlerAfter(HandlerWith(length, now), clock)) && s.handshakeComplete
    ensures Leads(s, [Retransmit(0, Some(0), stamp)], end) && Gone(end)
  {
    QueuedAgain(length, now, clock);
    end := Forgets(s, x, HandlerAfter(HandlerWith(length, now), clock), ThePacket(length, now), stamp);
    LeadsOnce(s, Retransmit(0, Some(0), stamp), end);
  }

  lemma {:induction false} LastSteps(x: byte, length: nat, now: int, clock: H.Clock, stamp: Stamp)
    returns (end: System)
    requires Inv(Written(x))
    ensures Leads(Written(x), LaterSteps(length, now, clock, stamp), end) && Gone(end)
  {
    var s1, s2, s3 := SentAndLost(x, length, now, clock);
    end := LastStep(s3, x, length, now, clock, stamp);
    var last := Retransmit(0, Some(0), stamp);
    Chain(Written(x), SendStep(length, now), s1, CompleteHandshake, s2, Alarm(0, clock, false), s3, [last], end);
  }

  /** Whatever the byte, the clocks and the packet's length are: the byte is lost, in a run that is not exceptional. */
  lemma {:induction false} DataDropped(x: byte, length: nat, now: int, clock: H.Clock, stamp: Stamp)
    ensures Inv(Init(true, WINDOWS))
    ensures var steps := Steps(x, length, now, clock, stamp);
      && Gone(Run(Init(true, WINDOWS), steps))
      && !NeverLoses(Init(true, WINDOWS), steps, 5)
  {
    var s0, steps := Init(true, WINDOWS), Steps(x, length, now, clock, stamp);
    var s1, s2 := Starts(x);
    var end := LastSteps(x, length, now, clock, stamp);
    var later := LaterSteps(length, now, clock, stamp);
    Chain(s0, OpenPath(0), s1, OpenStream(5), s2, WriteData(5, [x]), Written(x), later, end);
    GoneIsLost(s0, steps);
  }

  lemma {:induction false} GoneIsLost(s: System, steps: seq<Step>)
    requires s == Init(true, WINDOWS) && Inv(s) && Gone(Run(s, steps))
    ensures !NeverLoses(s, steps, 5)
  {
    if NeverLoses(s, steps, 5) {
      RS.SettledIsConfirmed(true, WINDOWS, steps, 5, 0);
    }
  }
}
