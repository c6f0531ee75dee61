/**
  What retransmissions promise over whole runs (quic-go/scheduler.go): every byte handed out by a stream stays in
  a queued frame, in a packet that will be sent again if it is lost, or in an acknowledged packet. This is so until
  a packet without forward-secure encryption is dropped that was the last to hold some byte.
 */
module RetransmissionSafety {
  import opened Basics
  import opened SentPackets
  import opened SentFrames
  import opened Retransmission
  import D = StreamDelivery
  import F = StreamFramer
  import FC = FlowControlManager
  import FP = FramePartition

  // ----- Bytes -----

  /** The frame object that holds the byte is queued, or will be sent again if it is lost, or is acknowledged. */
  ghost predicate ByteSafe(s: System, id: nat, b: nat) {
    exists name: nat ::
      name < |s.framer.store| && FP.Holds(s.framer.store[name], id, b) && Safe(s, name, id, b)
  }

  ghost predicate BytesSafe(s: System, id: nat) {
    id in s.contents ==> forall b: nat :: b < |s.contents[id]| ==> ByteSafe(s, id, b)
  }

  /** Every byte handed out is in exactly one object, so that bytes and objects are safe together. */
  lemma {:induction false} BytesAreFrames(s: System, id: nat)
    requires Inv(s) && !s.halted
    ensures StreamSafe(s, id) <==> BytesSafe(s, id)
  {
    if StreamSafe(s, id) && id in s.contents {
      forall b: nat | b < |s.contents[id]| ensures ByteSafe(s, id, b) {
        var name := FP.OnlyOne(s.framer.store, s.contents, id, b);
        assert Safe(s, name, id, b);
      }
    }
    if BytesSafe(s, id) {
      forall name: nat, b: nat | name < |s.framer.store| && FP.Holds(s.framer.store[name], id, b)
        ensures Safe(s, name, id, b)
      {
        HeldIsDue(s, name, id, b);
        var only := FP.OnlyOne(s.framer.store, s.contents, id, b);
        assert ByteSafe(s, id, b);
      }
    }
  }

  /** Objects hold nothing but what was handed out. */
  lemma {:induction false} HeldIsDue(s: System, name: nat, id: nat, b: nat)
    requires Inv(s) && name < |s.framer.store| && FP.Holds(s.framer.store[name], id, b)
    ensures id in s.contents && b < |s.contents[id]|
  {
    FP.HitsAt(s.framer.store, name, id, b);
    assert FP.Hits(s.framer.store, id, b) == FP.Due(s.contents, id, b);
  }

  // ----- Every run -----

  lemma {:induction false} NothingYet(client: bool, fc: FC.State, id: nat)
    ensures Inv(Init(client, fc)) && StreamSafe(Init(client, fc), id)
  {
    InitOk(client, fc);
  }

  /** In every state of the run until the connection is closed, every byte that the stream has handed out is safe. */
  ghost predicate AlwaysBytesSafe(s: System, steps: seq<Step>, id: nat)
    requires Inv(s)
    decreases |steps|
  {
    if steps == [] then s.halted || BytesSafe(s, id)
    else
      ApplyOk(s, steps[0]);
      (s.halted || BytesSafe(s, id)) && AlwaysBytesSafe(Apply(s, steps[0]), steps[1..], id)
  }

  lemma {:induction false} AlwaysBytes(s: System, steps: seq<Step>, id: nat)
    requires Inv(s)
    ensures AlwaysSafe(s, steps, id) <==> AlwaysBytesSafe(s, steps, id)
    decreases |steps|
  {
    if !s.halted {
      BytesAreFrames(s, id);
    }
    if steps != [] {
      ApplyOk(s, steps[0]);
      AlwaysBytes(Apply(s, steps[0]), steps[1..], id);
    }
  }

  /**
    No byte of the stream is ever forgotten, if and only if no step drops a packet without forward-secure
    encryption that held a byte of the stream which nothing else holds.
   */
  lemma {:induction false} NothingForgottenExactly(client: bool, fc: FC.State, steps: seq<Step>, id: nat)
    ensures Inv(Init(client, fc))
    ensures AlwaysBytesSafe(Init(client, fc), steps, id) <==> NeverLoses(Init(client, fc), steps, id)
  {
    NothingYet(client, fc, id);
    AlwaysBytes(Init(client, fc), steps, id);
    RunSafe(Init(client, fc), steps, id);
  }

  // ----- When nothing is on its way -----

  /** Nothing is queued, and every packet was acknowledged or replaced. */
  ghost predicate Settled(s: System) {
    && s.framer.queue == []
    && forall path :: path in s.paths ==> s.paths[path].handler.history == [] && s.paths[path].handler.queue == []
  }

  ghost predicate Confirmed(s: System, id: nat, b: nat) {
    exists path :: path in s.paths && Confirms(s.paths[path], id, b)
  }

  lemma {:induction false} LastState(s: System, steps: seq<Step>, id: nat)
    requires Inv(s) && AlwaysSafe(s, steps, id)
    ensures StreamSafe(Run(s, steps), id)
    decreases |steps|
  {
    if steps != [] {
      ApplyOk(s, steps[0]);
      LastState(Apply(s, steps[0]), steps[1..], id);
    }
  }

  /** If no byte was dropped and nothing is on its way any more, every byte was in an acknowledged packet. */
  lemma {:induction false} SettledIsConfirmed(client: bool, fc: FC.State, steps: seq<Step>, id: nat, b: nat)
    ensures Inv(Init(client, fc))
    ensures var end := Run(Init(client, fc), steps);
      && NeverLoses(Init(client, fc), steps, id) && !end.halted && Settled(end)
      && id in end.contents && b < |end.contents[id]|
      ==> Confirmed(end, id, b)
  {
    NothingYet(client, fc, id);
    var end := Run(Init(client, fc), steps);
    if
      && NeverLoses(Init(client, fc), steps, id) && !end.halted && Settled(end)
      && id in end.contents && b < |end.contents[id]|
    {
      RunSafe(Init(client, fc), steps, id);
      LastState(Init(client, fc), steps, id);
      var name := FP.OnlyOne(end.framer.store, end.contents, id, b);
      assert Safe(end, name, id, b);
    }
  }

  // ----- Servers -----

  /** Packets without forward-secure encryption hold nothing but the crypto stream. */
  ghost predicate CryptoNames(sent: Sent, store: F.Store) {
    sent.level == ForwardSecure || forall name :: name in sent.names ==> name < |store| && store[name].streamID == 1
  }

  ghost predicate OnlyCrypto(packets: map<nat, Sent>, store: F.Store) {
    forall n :: n in packets ==> CryptoNames(packets[n], store)
  }

  ghost predicate ServerOk(s: System) {
    !s.client && forall path :: path in s.paths ==> OnlyCrypto(s.paths[path].sent, s.framer.store)
  }

  lemma {:induction false} TrackedServer(s: System, path: nat, kinds: seq<FrameKind>, sent: Sent, stamp: Stamp)
    requires ServerOk(s) && path in s.paths && CryptoNames(sent, s.framer.store)
    ensures ServerOk(Tracked(s, path, kinds, sent, stamp))
  {
    assert OnlyCrypto(s.paths[path].sent[stamp.number := sent], s.framer.store) by {
      assert OnlyCrypto(s.paths[path].sent, s.framer.store);
    }
  }

  lemma {:induction false} FramerServer(s: System, framer: F.State, contents: F.Contents)
    requires ServerOk(s) && FP.Shrinks(s.framer.store, framer.store)
    ensures ServerOk(s.(framer := framer, contents := contents))
  {
    forall path | path in s.paths ensures OnlyCrypto(s.paths[path].sent, framer.store) {
      var packets := s.paths[path].sent;
      forall n | n in packets ensures CryptoNames(packets[n], framer.store) {
        assert CryptoNames(packets[n], s.framer.store);
        assert forall i :: 0 <= i < |s.framer.store| ==> FP.Part(framer.store[i], s.framer.store[i]);
      }
    }
  }

  lemma {:induction false} SendDataServer(s: System, step: Step)
    requires Inv(s) && ServerOk(s) && step.SendData? && step.path in s.paths
    ensures ServerOk(DoSendData(s, step))
  {
    var (framer, ids) := Composed(s, step);
    var s' := s.(framer := framer, contents := ComposedContents(s, step));
    ComposedOk(s, step);
    FramerServer(s, framer, s'.contents);
    TrackedServer(
      s', step.path, step.controls + StreamKinds(|ids|), Sent(ids, F.Frames(framer.store, ids), step.level),
      step.stamp);
  }

  lemma {:induction false} SendCryptoServer(s: System, step: Step)
    requires Inv(s) && ServerOk(s) && step.SendCrypto? && step.path in s.paths
    ensures ServerOk(DoSendCrypto(s, step))
  {
    if 1 in s.framer.writers && step.space <= MAX_PACKET_SIZE && D.CryptoFrame(s.framer.writers[1], step.space).Some? {
      var (w, f) := D.CryptoFrame(s.framer.writers[1], step.space).value;
      AfterCryptoOk(s, step.space);
      var s' := AfterCrypto(s, w, f);
      FramerServer(s, s'.framer, s'.contents);
      TrackedServer(s', step.path, [Stream], Sent([|s.framer.store|], [f], step.level), step.stamp);
    }
  }

  lemma {:induction false} RetransmitServer(s: System, step: Step)
    requires Inv(s) && ServerOk(s) && step.Retransmit? && Ready(s, step.path)
    requires F.Refers(NextSent(s, step.path).names, |s.framer.store|)
    ensures ServerOk(DoRetransmit(s, step))
  {
    var p, sent, s' := Next(s.paths[step.path]), NextSent(s, step.path), TakenOff(s, step.path);
    assert OnlyCrypto(s.paths[step.path].sent, s.framer.store);
    assert ServerOk(s');
    if sent.level != ForwardSecure && !Drops(s, step) {
      TrackedServer(
        s', step.target.value, [StopWaiting] + p.frames,
        Sent(sent.names, F.Frames(s.framer.store, sent.names), sent.level), step.stamp);
    }
  }

  lemma {:induction false} OutsideServer(s: System, step: Step)
    requires ServerOk(s)
    ensures ServerOk(ApplyOutside(s, step))
  {
  }

  lemma {:induction false} ApplyServer(s: System, step: Step)
    requires Inv(s) && ServerOk(s)
    ensures ServerOk(Apply(s, step))
  {
    if !s.halted {
      match step
      case SendData(path, _, _, _, _, _, _) => if path in s.paths { SendDataServer(s, step); }
      case SendCrypto(path, _, _, _) => if path in s.paths { SendCryptoServer(s, step); }
      case Retransmit(path, _, _) => if Ready(s, path) { RetransmitOk(s, step); RetransmitServer(s, step); }
      case _ => OutsideServer(s, step);
    }
  }

  lemma {:induction false} ServerNeverLoses(s: System, steps: seq<Step>, id: nat)
    requires Inv(s) && ServerOk(s) && id != 1
    ensures NeverLoses(s, steps, id)
    decreases |steps|
  {
    if steps != [] {
      ApplyOk(s, steps[0]);
      ApplyServer(s, steps[0]);
      ServerNeverLoses(Apply(s, steps[0]), steps[1..], id);
    }
  }

  /** A server never forgets a byte of a data stream. */
  lemma {:induction false} ServerKeepsAll(fc: FC.State, steps: seq<Step>, id: nat)
    requires id != 1
    ensures Inv(Init(false, fc)) && AlwaysBytesSafe(Init(false, fc), steps, id)
  {
    NothingForgottenExactly(false, fc, steps, id);
    ServerNeverLoses(Init(false, fc), steps, id);
  }
}
