/**
  Which frame objects a path answers for (quic-go/ackhandler/sent_packet_handler.go): those of packets that are
  tracked or queued for retransmission, and what was in acknowledged packets when they were written.
 */
module SentFrames {
  import opened Basics
  import opened StreamFrames
  import opened SentPackets
  import F = StreamFramer
  import FP = FramePartition
  import H = SentPacketHandler

  datatype Level = Unspecified | Unencrypted | Secure | ForwardSecure

  /** What was sent under a packet number: frame objects, what they held when they were written, and how. */
  datatype Sent = Sent(names: seq<nat>, frames: seq<StreamFrame>, level: Level)

  /** A path's handler, all packets sent on the path, and the numbers acknowledged. */
  datatype Path = Path(handler: H.State, sent: map<nat, Sent>, acked: set<nat>)

  const NEW_PATH := Path(H.INIT, map[], {})

  predicate HasNumber(ps: seq<Packet>, n: nat) {
    exists p :: p in ps && p.number == n
  }

  /** The packet is tracked or queued for retransmission. */
  predicate Tracks(path: Path, n: nat) {
    HasNumber(path.handler.history, n) || HasNumber(path.handler.queue, n)
  }

  /** Some packet that will be sent again if it is lost holds the frame. */
  ghost predicate Keeps(path: Path, name: nat) {
    exists n :: n in path.sent && Tracks(path, n) && name in path.sent[n].names
  }

  ghost predicate Wrote(sent: Sent, id: nat, b: nat) {
    exists f :: f in sent.frames && FP.Holds(f, id, b)
  }

  /** The byte was in a packet that is acknowledged. */
  ghost predicate Confirms(path: Path, id: nat, b: nat) {
    exists n :: n in path.sent && n in path.acked && Wrote(path.sent[n], id, b)
  }

  /** The path answers for the byte of the frame object. */
  ghost predicate Answers(path: Path, name: nat, id: nat, b: nat) {
    Keeps(path, name) || Confirms(path, id, b)
  }

  /** Objects have only shrunk since they were written. */
  ghost predicate SentOk(sent: Sent, store: F.Store) {
    && F.Refers(sent.names, |store|) && |sent.frames| == |sent.names|
    && forall i :: 0 <= i < |sent.names| ==>
        sent.names[i] < |store| && FP.Part(store[sent.names[i]], sent.frames[i])
  }

  /** What is known of the packets in a list: what was sent, and that STREAM frames are counted among their frames. */
  ghost predicate Known(ps: seq<Packet>, sent: map<nat, Sent>) {
    forall p :: p in ps ==> p.number in sent && (sent[p.number].names == [] || Stream in p.frames)
  }

  ghost predicate PathOk(path: Path, store: F.Store) {
    && H.Valid(path.handler)
    && Known(path.handler.history, path.sent) && Known(path.handler.queue, path.sent)
    && forall n :: n in path.sent ==> n <= path.handler.lastSent && SentOk(path.sent[n], store)
  }

  lemma {:induction false} SentStaysOk(sent: Sent, store: F.Store, store': F.Store)
    requires SentOk(sent, store) && FP.Shrinks(store, store')
    ensures SentOk(sent, store')
  {
    F.RefersMore(sent.names, |store|, |store'|);
  }

  lemma {:induction false} PathStaysOk(path: Path, store: F.Store, store': F.Store)
    requires PathOk(path, store) && FP.Shrinks(store, store')
    ensures PathOk(path, store')
  {
    forall n | n in path.sent ensures SentOk(path.sent[n], store') {
      SentStaysOk(path.sent[n], store, store');
    }
  }

  lemma {:induction false} FramesAt(store: F.Store, names: seq<nat>, i: nat)
    requires F.Refers(names, |store|) && i < |names|
    ensures names[i] < |store| && F.Frames(store, names)[i] == store[names[i]]
  {
    if i > 0 {
      FramesAt(store, names[1..], i - 1);
    }
  }

  /** Frames as they are at the moment. */
  lemma {:induction false} WritesOk(store: F.Store, names: seq<nat>, level: Level)
    requires F.Refers(names, |store|)
    ensures SentOk(Sent(names, F.Frames(store, names), level), store)
  {
    forall i | 0 <= i < |names| ensures names[i] < |store| && F.Frames(store, names)[i] == store[names[i]] {
      FramesAt(store, names, i);
    }
  }

  // ----- Sending a packet -----

  /** The packet is recorded, or refused. */
  function Track(path: Path, number: nat, kinds: seq<FrameKind>, length: nat, now: int, sent: Sent): (Path, bool) {
    var (handler, outcome) := H.Sent(path.handler, number, kinds, length, now);
    if outcome != H.Done then (path, false)
    else (Path(handler, path.sent[number := sent], path.acked), true)
  }

  lemma {:induction false} StripKeepsStream(kinds: seq<FrameKind>)
    requires Stream in kinds
    ensures Stream in Strip(kinds)
  {
    if kinds[0] != Stream {
      StripKeepsStream(kinds[1..]);
    }
  }

  lemma {:induction false} TrackOk(
    path: Path, number: nat, kinds: seq<FrameKind>, length: nat, now: int, sent: Sent, store: F.Store)
    requires PathOk(path, store) && SentOk(sent, store) && (sent.names == [] || Stream in kinds)
    ensures PathOk(Track(path, number, kinds, length, now, sent).0, store)
  {
    var (path', ok) := Track(path, number, kinds, length, now, sent);
    if sent.names != [] {
      StripKeepsStream(kinds);
    }
    H.SentValid(path.handler, number, kinds, length, now);
    H.SentEffect(path.handler, number, kinds, length, now);
    if ok {
      assert path'.handler.queue == path.handler.queue && path'.handler.lastSent == number;
      forall p | p in path'.handler.history
        ensures p.number in path'.sent && (path'.sent[p.number].names == [] || Stream in p.frames)
      {
        assert p in path.handler.history || p in H.Entered(path.handler, number, kinds, length, now);
      }
    }
  }

  /** What the path answered for, it still answers for. */
  lemma {:induction false} TrackAnswers(
    path: Path, number: nat, kinds: seq<FrameKind>, length: nat, now: int, sent: Sent, store: F.Store,
    name: nat, id: nat, b: nat)
    requires PathOk(path, store) && Answers(path, name, id, b)
    ensures Answers(Track(path, number, kinds, length, now, sent).0, name, id, b)
  {
    var (path', ok) := Track(path, number, kinds, length, now, sent);
    if ok {
      H.SentEffect(path.handler, number, kinds, length, now);
      if Keeps(path, name) {
        var n :| n in path.sent && Tracks(path, n) && name in path.sent[n].names;
        assert n != number && path'.sent[n] == path.sent[n];
        NumberStays(path.handler.history, path'.handler.history, n);
        assert path'.handler.queue == path.handler.queue;
        assert Tracks(path', n);
      } else {
        var n :| n in path.sent && n in path.acked && Wrote(path.sent[n], id, b);
        assert n != number && path'.sent[n] == path.sent[n];
      }
    }
  }

  lemma {:induction false} NumberStays(ps: seq<Packet>, ps': seq<Packet>, n: nat)
    requires forall p :: p in ps ==> p in ps'
    ensures HasNumber(ps, n) ==> HasNumber(ps', n)
  {
  }

  /** It also answers for the frames of the new packet. */
  lemma {:induction false} TrackHolds(
    path: Path, number: nat, kinds: seq<FrameKind>, length: nat, now: int, sent: Sent, name: nat)
    requires Track(path, number, kinds, length, now, sent).1 && Stream in kinds && name in sent.names
    ensures Keeps(Track(path, number, kinds, length, now, sent).0, name)
  {
    var path' := Track(path, number, kinds, length, now, sent).0;
    StripKeepsStream(kinds);
    H.SentEffect(path.handler, number, kinds, length, now);
    var p := H.Entered(path.handler, number, kinds, length, now)[0];
    assert p in path'.handler.history && p.number == number;
    assert Tracks(path', number);
  }

  // ----- Acknowledgements and timers -----

  function Numbers(ps: seq<Packet>): set<nat> {
    set p | p in ps :: p.number
  }

  function OnEffect(path: Path, e: H.Effect): Path {
    Path(e.st, path.sent, path.acked + Numbers(e.acked))
  }

  lemma {:induction false} StaysOrLeaves(ps: seq<Packet>, chosen: seq<Packet>, p: Packet)
    requires Among(chosen, ps)
    ensures p in ps <==> p in chosen || p in Leave(ps, chosen)
  {
    LeaveSplits(ps, chosen, p);
    CountPositive(ps, p);
    CountPositive(chosen, p);
    CountPositive(Leave(ps, chosen), p);
  }

  /** A tracked packet stays tracked, is acknowledged, or is queued for retransmission; nothing comes from elsewhere. */
  lemma {:induction false} DepartsWhere(st: H.State, e: H.Effect, p: Packet)
    requires H.Departs(st, e)
    ensures p in st.history <==> p in e.acked || p in e.moved || p in e.st.history
  {
    StaysOrLeaves(st.history, e.acked, p);
    StaysOrLeaves(Leave(st.history, e.acked), e.moved, p);
  }

  lemma {:induction false} EffectOk(path: Path, e: H.Effect, store: F.Store)
    requires PathOk(path, store) && H.Departs(path.handler, e)
    ensures PathOk(OnEffect(path, e), store)
  {
    H.DepartsValid(path.handler, e);
    forall p | p in e.st.history || p in e.st.queue ensures p in path.handler.history || p in path.handler.queue {
      DepartsWhere(path.handler, e, p);
    }
  }

  /** The packet is still tracked, or it is acknowledged. */
  lemma {:induction false} EffectTracks(path: Path, e: H.Effect, n: nat)
    requires H.Departs(path.handler, e) && Tracks(path, n)
    ensures Tracks(OnEffect(path, e), n) || n in OnEffect(path, e).acked
  {
    if HasNumber(path.handler.history, n) {
      var p :| p in path.handler.history && p.number == n;
      DepartsWhere(path.handler, e, p);
      if p in e.moved {
        assert p in e.st.queue;
      }
    } else {
      var p :| p in path.handler.queue && p.number == n;
      assert p in e.st.queue;
    }
  }

  /** An object holds no more than what was written of it. */
  lemma {:induction false} WroteAll(sent: Sent, store: F.Store, name: nat, id: nat, b: nat)
    requires SentOk(sent, store) && name in sent.names && name < |store| && FP.Holds(store[name], id, b)
    ensures Wrote(sent, id, b)
  {
    var i :| 0 <= i < |sent.names| && sent.names[i] == name;
    assert FP.Holds(sent.frames[i], id, b);
  }

  lemma {:induction false} EffectAnswers(path: Path, e: H.Effect, store: F.Store, name: nat, id: nat, b: nat)
    requires PathOk(path, store) && H.Departs(path.handler, e) && Answers(path, name, id, b)
    requires name < |store| && FP.Holds(store[name], id, b)
    ensures Answers(OnEffect(path, e), name, id, b)
  {
    var path' := OnEffect(path, e);
    if Keeps(path, name) {
      var n :| n in path.sent && Tracks(path, n) && name in path.sent[n].names;
      EffectTracks(path, e, n);
      WroteAll(path.sent[n], store, name, id, b);
      assert n in path'.sent;
    } else {
      var n :| n in path.sent && n in path.acked && Wrote(path.sent[n], id, b);
      assert n in path'.sent && n in path'.acked;
    }
  }

  // ----- The retransmission queue -----

  function Dequeued(path: Path): Path {
    path.(handler := H.Dequeued(path.handler).0)
  }

  lemma {:induction false} DequeuedOk(path: Path, store: F.Store)
    requires PathOk(path, store)
    ensures PathOk(Dequeued(path), store)
  {
  }

  /** Only the frames of the packet taken from the queue may be left unanswered for. */
  lemma {:induction false} DequeuedAnswers(path: Path, name: nat, id: nat, b: nat)
    requires path.handler.queue != [] && path.handler.queue[0].number in path.sent
    requires Answers(path, name, id, b) && name !in path.sent[path.handler.queue[0].number].names
    ensures Answers(Dequeued(path), name, id, b)
  {
    var path' := Dequeued(path);
    if Keeps(path, name) {
      var n :| n in path.sent && Tracks(path, n) && name in path.sent[n].names;
      if !HasNumber(path.handler.history, n) {
        var p :| p in path.handler.queue && p.number == n;
        assert p in path.handler.queue[1..];
      }
      assert Tracks(path', n);
    } else {
      var n :| n in path.sent && n in path.acked && Wrote(path.sent[n], id, b);
      assert n in path'.sent && n in path'.acked;
    }
  }

  /** The packet is queued once more. */
  function Duplicated(path: Path, p: Packet): Path {
    path.(handler := H.Duplicated(path.handler, p))
  }

  lemma {:induction false} DuplicatedOk(path: Path, p: Packet, store: F.Store)
    requires PathOk(path, store) && p in path.handler.history
    ensures PathOk(Duplicated(path, p), store)
  {
  }

  lemma {:induction false} DuplicatedAnswers(path: Path, p: Packet, name: nat, id: nat, b: nat)
    requires Answers(path, name, id, b)
    ensures Answers(Duplicated(path, p), name, id, b)
  {
    var path' := Duplicated(path, p);
    if Keeps(path, name) {
      var n :| n in path.sent && Tracks(path, n) && name in path.sent[n].names;
      NumberStays(path.handler.queue, path'.handler.queue, n);
      assert Tracks(path', n);
    } else {
      var n :| n in path.sent && n in path.acked && Wrote(path.sent[n], id, b);
      assert n in path'.sent && n in path'.acked;
    }
  }
}
