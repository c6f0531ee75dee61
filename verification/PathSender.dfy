/**
  The sending half of a path: its packet number generator together with its record of sent packets
  (quic-go/path.go, quic-go/packet_packer.go).
 */
module PathSender {
  import opened Basics
  import opened SentPackets
  import G = PacketNumberGenerator
  import S = SentPacketHandler
  import SW = StopWaiting

  datatype State = State(generator: G.State, handler: S.State, ledger: S.Ledger)

  /** A packet takes the next number; a number is also used up when the packet is never handed to the path. */
  datatype Step =
    | SendNext(random: Option<u16>, frames: seq<FrameKind>, length: nat, now: int)
    | Waste(random: Option<u16>)
    | Other(step: S.Step)

  function Init(averagePeriod: nat): State {
    State(G.Init(averagePeriod), S.INIT, S.EMPTY)
  }

  function Apply(st: State, step: Step): (r: State)
    requires st.generator.averagePeriod >= 1
    ensures r.generator.averagePeriod == st.generator.averagePeriod
  {
    match step
    case SendNext(random, frames, length, now) =>
      var (generator, number) := G.Popped(st.generator, random);
      var (handler, ledger) := S.Apply(st.handler, st.ledger, S.Send(number, frames, length, now));
      State(generator, handler, ledger)
    case Waste(random) => st.(generator := G.Popped(st.generator, random).0)
    case Other(s) =>
      if s.Send? then st
      else
        var (handler, ledger) := S.Apply(st.handler, st.ledger, s);
        st.(handler := handler, ledger := ledger)
  }

  ghost predicate Inv(st: State, p: Packet) {
    && st.generator.averagePeriod >= 1
    && S.Valid(st.handler)
    && S.Balanced(st.handler, st.ledger, p)
    && st.handler.lastSent < st.generator.next
  }

  lemma {:induction false} ApplyKeeps(st: State, step: Step, p: Packet)
    requires Inv(st, p)
    ensures Inv(Apply(st, step), p)
  {
    match step
    case SendNext(random, frames, length, now) =>
      var number := G.Popped(st.generator, random).1;
      S.ApplyKeeps(st.handler, st.ledger, S.Send(number, frames, length, now), p);
    case Waste(_) =>
    case Other(s) =>
      if !s.Send? {
        S.ApplyKeeps(st.handler, st.ledger, s, p);
        LastSentKept(st.handler, st.ledger, s);
      }
  }

  lemma {:induction false} LastSentKept(handler: S.State, ledger: S.Ledger, step: S.Step)
    requires S.Valid(handler) && !step.Send?
    ensures S.Apply(handler, ledger, step).0.lastSent == handler.lastSent
  {
    match step
    case Acknowledge(ack, withNumber, clock) => S.AckDeparts(handler, ack, withNumber, clock);
    case Close(close, withNumber) => S.ClosePathDeparts(handler, close, withNumber);
    case Alarm(clock, potentiallyFailed) => S.AlarmDeparts(handler, clock, potentiallyFailed);
    case _ =>
  }

  function Run(st: State, steps: seq<Step>): (r: State)
    requires st.generator.averagePeriod >= 1
    ensures r.generator.averagePeriod == st.generator.averagePeriod
    decreases |steps|
  {
    if steps == [] then st else Run(Apply(st, steps[0]), steps[1..])
  }

  lemma {:induction false} RunKeeps(st: State, steps: seq<Step>, p: Packet)
    requires Inv(st, p)
    ensures Inv(Run(st, steps), p)
    decreases |steps|
  {
    if steps != [] {
      ApplyKeeps(st, steps[0], p);
      RunKeeps(Apply(st, steps[0]), steps[1..], p);
    }
  }

  /** In every run, a STOP_WAITING frame names at least 1 and at most the next number the generator returns. */
  lemma {:induction false} StopWaitingBelowNext(
    averagePeriod: nat, steps: seq<Step>, force: bool, random: Option<u16>)
    requires averagePeriod >= 1
    ensures var st := Run(Init(averagePeriod), steps);
      var frame := S.GetStopWaiting(st.handler, force).1;
      frame.Some? ==> 1 <= frame.value <= G.Popped(st.generator, random).1
  {
    RunKeeps(Init(averagePeriod), steps, Packet(0, [], 0, 0));
    var st := Run(Init(averagePeriod), steps);
    SW.FrameInRange(st.handler.stopWaiting, force, st.handler.lastSent);
  }

  /** In every run the generator's numbers are new to the handler: a packet is never refused for its number. */
  lemma {:induction false} NumbersAlwaysIncrease(averagePeriod: nat, steps: seq<Step>, step: Step)
    requires averagePeriod >= 1 && step.SendNext?
    ensures var st := Run(Init(averagePeriod), steps);
      var number := G.Popped(st.generator, step.random).1;
      S.Sent(st.handler, number, step.frames, step.length, step.now).1 != S.NotIncreasing
  {
    RunKeeps(Init(averagePeriod), steps, Packet(0, [], 0, 0));
  }
}
