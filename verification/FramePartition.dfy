/**
  Frame objects divide what streams have handed out among them (quic-go/stream_framer.go): every byte is in exactly
  one object, however often frames are sent again, shared and cut in place.
 */
module FramePartition {
  import opened Basics
  import opened StreamFrames
  import F = StreamFramer
  import FC = FlowControlManager
  import P = PacketPacker

  /** The frame holds byte `b` of the stream. */
  predicate Holds(f: StreamFrame, id: nat, b: nat) {
    f.streamID == id && f.offset <= b < f.End()
  }

  function Hit(f: StreamFrame, id: nat, b: nat): nat {
    if Holds(f, id, b) then 1 else 0
  }

  /** How many objects hold the byte. */
  function Hits(store: F.Store, id: nat, b: nat): nat {
    if store == [] then 0 else Hit(store[0], id, b) + Hits(store[1..], id, b)
  }

  /** The byte has been handed out. */
  function Due(contents: F.Contents, id: nat, b: nat): nat {
    if id in contents && b < |contents[id]| then 1 else 0
  }

  ghost predicate Partition(store: F.Store, contents: F.Contents) {
    forall id: nat, b: nat :: Hits(store, id, b) == Due(contents, id, b)
  }

  // ----- Counting -----

  lemma {:induction false} HitsAppend(a: F.Store, c: F.Store, id: nat, b: nat)
    ensures Hits(a + c, id, b) == Hits(a, id, b) + Hits(c, id, b)
  {
    if a == [] {
      assert a + c == c;
    } else {
      HitsAppend(a[1..], c, id, b);
      assert (a + c)[1..] == a[1..] + c;
    }
  }

  lemma {:induction false} HitsUpdate(store: F.Store, i: nat, f: StreamFrame, id: nat, b: nat)
    requires i < |store|
    ensures Hits(store[i := f], id, b) + Hit(store[i], id, b) == Hits(store, id, b) + Hit(f, id, b)
  {
    if i > 0 {
      HitsUpdate(store[1..], i - 1, f, id, b);
      assert store[i := f][1..] == store[1..][i - 1 := f];
    } else {
      assert store[0 := f][1..] == store[1..];
    }
  }

  /** An object that holds the byte counts. */
  lemma {:induction false} HitsAt(store: F.Store, i: nat, id: nat, b: nat)
    requires i < |store|
    ensures Hits(store, id, b) >= Hit(store[i], id, b)
  {
    if i > 0 {
      HitsAt(store[1..], i - 1, id, b);
    }
  }

  lemma {:induction false} HitsTwice(store: F.Store, i: nat, j: nat, id: nat, b: nat)
    requires i < j < |store|
    ensures Hits(store, id, b) >= Hit(store[i], id, b) + Hit(store[j], id, b)
  {
    if i > 0 {
      HitsTwice(store[1..], i - 1, j - 1, id, b);
    } else {
      HitsAt(store[1..], j - 1, id, b);
    }
  }

  lemma {:induction false} HitsSome(store: F.Store, id: nat, b: nat) returns (i: nat)
    requires Hits(store, id, b) > 0
    ensures i < |store| && Holds(store[i], id, b)
  {
    if Holds(store[0], id, b) {
      i := 0;
    } else {
      i := HitsSome(store[1..], id, b);
      i := i + 1;
    }
  }

  /** In a partition the object that holds a byte handed out is there, and is the only one. */
  lemma {:induction false} OnlyOne(store: F.Store, contents: F.Contents, id: nat, b: nat) returns (i: nat)
    requires Partition(store, contents) && id in contents && b < |contents[id]|
    ensures i < |store| && Holds(store[i], id, b)
    ensures forall j :: 0 <= j < |store| && Holds(store[j], id, b) ==> j == i
  {
    assert Hits(store, id, b) == 1;
    i := HitsSome(store, id, b);
    forall j | 0 <= j < |store| && Holds(store[j], id, b) ensures j == i {
      if j < i {
        HitsTwice(store, j, i, id, b);
      } else if i < j {
        HitsTwice(store, i, j, id, b);
      }
    }
  }

  // ----- Sending again -----

  /** Only flags differ. */
  ghost predicate SameShape(a: F.Store, c: F.Store) {
    |a| == |c| && forall i :: 0 <= i < |a| ==>
      a[i].streamID == c[i].streamID && a[i].offset == c[i].offset && a[i].data == c[i].data
  }

  lemma {:induction false} SameHits(a: F.Store, c: F.Store, id: nat, b: nat)
    requires SameShape(a, c)
    ensures Hits(a, id, b) == Hits(c, id, b)
  {
    if a != [] {
      SameHits(a[1..], c[1..], id, b);
    }
  }

  lemma {:induction false} TakenShape(store: F.Store, queue: seq<nat>, used: nat, maxLen: nat)
    requires F.Refers(queue, |store|)
    ensures SameShape(store, F.TakeWhole(store, queue, used, maxLen).store)
  {
    forall i | 0 <= i < |store| {
      F.TakeWholeKeeps(store, queue, used, maxLen, i);
    }
  }

  lemma {:induction false} ClearedShape(store: F.Store, ids: seq<nat>)
    requires F.Refers(ids, |store|)
    ensures SameShape(store, P.ClearLast(store, ids))
  {
    if ids != [] {
      P.LastRefers(ids, |store|);
    }
  }

  lemma {:induction false} SplitHits(f: StreamFrame, n: nat, id: nat, b: nat)
    requires n < |f.data|
    ensures var (first, rest) := F.SplitOff(f, n); Hit(first, id, b) + Hit(rest, id, b) == Hit(f, id, b)
  {
  }

  lemma {:induction false} CutHits(store: F.Store, x: nat, n: nat, id: nat, b: nat)
    requires x < |store| && n < |store[x].data|
    ensures var (first, rest) := F.SplitOff(store[x], n); Hits(store[x := rest] + [first], id, b) == Hits(store, id, b)
  {
    var (first, rest) := F.SplitOff(store[x], n);
    HitsAppend(store[x := rest], [first], id, b);
    HitsUpdate(store, x, rest, id, b);
    SplitHits(store[x], n, id, b);
    assert [first][1..] == [];
  }

  /** Retransmission leaves every byte where it is, or in one of two parts. */
  lemma {:induction false} RetransmissionHits(store: F.Store, queue: seq<nat>, maxLen: nat, id: nat, b: nat)
    requires F.Refers(queue, |store|)
    ensures Hits(F.PopRetransmissions(store, queue, maxLen).store, id, b) == Hits(store, id, b)
  {
    var t := F.TakeWhole(store, queue, 0, maxLen);
    TakenShape(store, queue, 0, maxLen);
    SameHits(store, t.store, id, b);
    if F.Splits(t, maxLen) {
      CutHits(t.store, t.queue[0], F.SplitAt(t, maxLen), id, b);
    }
  }

  // ----- New data -----

  /** A new frame goes on where its stream has stopped. */
  lemma {:induction false} VisitGoesOn(
    st: F.State, stream: nat, used: nat, maxBytes: nat, negotiated: FC.Negotiated, contents: F.Contents)
    requires F.SenderOk(st.writers, contents)
    ensures var v := F.VisitStream(st, stream, used, maxBytes, negotiated);
      v.frame.Some? ==>
        v.frame.value.streamID == stream && stream in contents && v.frame.value.offset == |contents[stream]|
  {
  }

  lemma {:induction false} ExtendedDue(contents: F.Contents, f: StreamFrame, id: nat, b: nat)
    requires f.streamID in contents && f.offset == |contents[f.streamID]|
    ensures Due(F.Extended(contents, Some(f)), id, b) == Due(contents, id, b) + Hit(f, id, b)
  {
  }

  lemma {:induction false} WalkUnfolds(
    st: F.State, order: seq<nat>, used: nat, maxBytes: nat, negotiated: FC.Negotiated, v: F.Visit, used': nat,
    rest: seq<StreamFrame>)
    requires order != [] && v == F.VisitStream(st, order[0], used, maxBytes, negotiated)
    requires used' == used + if v.frame.None? then 0 else F.Length(v.frame.value)
    requires rest == if v.goOn then F.WalkStreams(v.st, order[1..], used', maxBytes, negotiated).frames else []
    ensures F.WalkStreams(st, order, used, maxBytes, negotiated).frames == F.Made(v.frame) + rest
  {
    assert F.Made(v.frame) + [] == F.Made(v.frame);
  }

  lemma {:induction false} WalkHits(
    st: F.State, order: seq<nat>, used: nat, maxBytes: nat, negotiated: FC.Negotiated, contents: F.Contents,
    id: nat, b: nat)
    requires F.SenderOk(st.writers, contents)
    ensures var w := F.WalkStreams(st, order, used, maxBytes, negotiated);
      Due(F.ExtendedAll(contents, w.frames), id, b) == Due(contents, id, b) + Hits(w.frames, id, b)
    decreases |order|
  {
    if order != [] {
      var v := F.VisitStream(st, order[0], used, maxBytes, negotiated);
      var used' := used + if v.frame.None? then 0 else F.Length(v.frame.value);
      var contents1 := F.Extended(contents, v.frame);
      VisitHits(st, order[0], used, maxBytes, negotiated, contents, id, b);
      var rest := if v.goOn then F.WalkStreams(v.st, order[1..], used', maxBytes, negotiated).frames else [];
      WalkUnfolds(st, order, used, maxBytes, negotiated, v, used', rest);
      MadeFirst(contents, v.frame, rest, id, b);
      assert Due(F.ExtendedAll(contents1, rest), id, b) == Due(contents1, id, b) + Hits(rest, id, b) by {
        if v.goOn {
          WalkHits(v.st, order[1..], used', maxBytes, negotiated, contents1, id, b);
        }
      }
    }
  }

  lemma {:induction false} VisitHits(
    st: F.State, stream: nat, used: nat, maxBytes: nat, negotiated: FC.Negotiated, contents: F.Contents,
    id: nat, b: nat)
    requires F.SenderOk(st.writers, contents)
    ensures var v := F.VisitStream(st, stream, used, maxBytes, negotiated);
      && F.SenderOk(v.st.writers, F.Extended(contents, v.frame))
      && Due(F.Extended(contents, v.frame), id, b)
        == Due(contents, id, b) + if v.frame.None? then 0 else Hit(v.frame.value, id, b)
  {
    var v := F.VisitStream(st, stream, used, maxBytes, negotiated);
    F.VisitOk(st, stream, used, maxBytes, negotiated, contents);
    VisitGoesOn(st, stream, used, maxBytes, negotiated, contents);
    if v.frame.Some? {
      ExtendedDue(contents, v.frame.value, id, b);
    }
  }

  lemma {:induction false} MadeFirst(
    contents: F.Contents, frame: Option<StreamFrame>, rest: seq<StreamFrame>, id: nat, b: nat)
    ensures F.ExtendedAll(contents, F.Made(frame) + rest) == F.ExtendedAll(F.Extended(contents, frame), rest)
    ensures Hits(F.Made(frame) + rest, id, b)
      == (if frame.None? then 0 else Hit(frame.value, id, b)) + Hits(rest, id, b)
  {
    if frame.None? {
      assert F.Made(frame) + rest == rest;
    } else {
      assert ([frame.value] + rest)[1..] == rest;
    }
  }

  // ----- Filling a packet -----

  lemma {:induction false} PopHits(
    framer: F.State, order: seq<nat>, maxLen: nat, negotiated: FC.Negotiated, contents: F.Contents, id: nat, b: nat)
    requires F.Refers(framer.queue, |framer.store|) && F.SenderOk(framer.writers, contents)
    ensures var framer' := F.PopStreamFrames(framer, order, maxLen, negotiated).0;
      var contents' := F.ContentsAfter(framer, order, maxLen, negotiated, contents);
      Hits(framer'.store, id, b) + Due(contents, id, b) == Hits(framer.store, id, b) + Due(contents', id, b)
  {
    var r := F.PopRetransmissions(framer.store, framer.queue, maxLen);
    var w := F.NewFrames(framer, order, maxLen, negotiated);
    assert Hits(w.st.store, id, b) == Hits(framer.store, id, b) + Hits(w.frames, id, b) by {
      RetransmissionHits(framer.store, framer.queue, maxLen, id, b);
      F.NewFramesStored(framer, order, maxLen, negotiated);
      HitsAppend(r.store, w.frames, id, b);
    }
    var space := if r.used <= maxLen then maxLen - r.used else 0;
    WalkHits(F.AfterRetransmissions(framer, maxLen), order, 0, space, negotiated, contents, id, b);
  }

  /** Whatever is queued, cut and made anew for a packet: every byte stays in exactly one object. */
  lemma {:induction false} ComposePartition(
    framer: F.State, order: seq<nat>, space: nat, negotiated: FC.Negotiated, contents: F.Contents)
    requires F.Refers(framer.queue, |framer.store|) && F.SenderOk(framer.writers, contents)
    requires Partition(framer.store, contents)
    ensures Partition(
      P.ComposeData(framer, order, space, negotiated).0.store,
      F.ContentsAfter(framer, order, space, negotiated, contents))
  {
    var (popped, ids) := F.PopStreamFrames(framer, order, space, negotiated);
    F.PoppedFrames(framer, order, space, negotiated);
    var store := P.ClearLast(popped.store, ids);
    ClearedShape(popped.store, ids);
    var contents' := F.ContentsAfter(framer, order, space, negotiated, contents);
    forall id: nat, b: nat ensures Hits(store, id, b) == Due(contents', id, b) {
      SameHits(popped.store, store, id, b);
      PopHits(framer, order, space, negotiated, contents, id, b);
      assert Hits(framer.store, id, b) == Due(contents, id, b);
    }
  }

  /** A new object that goes on where its stream has stopped. */
  lemma {:induction false} AppendPartition(store: F.Store, contents: F.Contents, f: StreamFrame)
    requires Partition(store, contents) && f.streamID in contents && f.offset == |contents[f.streamID]|
    ensures Partition(store + [f], F.Extended(contents, Some(f)))
  {
    forall id: nat, b: nat ensures Hits(store + [f], id, b) == Due(F.Extended(contents, Some(f)), id, b) {
      HitsAppend(store, [f], id, b);
      assert [f][1..] == [];
      ExtendedDue(contents, f, id, b);
      assert Hits(store, id, b) == Due(contents, id, b);
    }
  }

  // ----- Objects only shrink -----

  /** The frame is a part of the other one. */
  predicate Part(f: StreamFrame, g: StreamFrame) {
    f.streamID == g.streamID && g.offset <= f.offset && f.End() <= g.End()
  }

  ghost predicate Shrinks(store: F.Store, store': F.Store) {
    |store| <= |store'| && forall i :: 0 <= i < |store| ==> Part(store'[i], store[i])
  }

  lemma {:induction false} ComposeShrinks(framer: F.State, order: seq<nat>, space: nat, negotiated: FC.Negotiated)
    requires F.Refers(framer.queue, |framer.store|)
    ensures Shrinks(framer.store, P.ComposeData(framer, order, space, negotiated).0.store)
  {
    var (popped, ids) := F.PopStreamFrames(framer, order, space, negotiated);
    F.PoppedFrames(framer, order, space, negotiated);
    ClearedShape(popped.store, ids);
    RetransmissionsShrink(framer.store, framer.queue, space);
    F.NewFramesStored(framer, order, space, negotiated);
  }

  lemma {:induction false} RetransmissionsShrink(store: F.Store, queue: seq<nat>, maxLen: nat)
    requires F.Refers(queue, |store|)
    ensures Shrinks(store, F.PopRetransmissions(store, queue, maxLen).store)
  {
    TakenShape(store, queue, 0, maxLen);
  }

  // ----- Names -----

  lemma {:induction false} TakenNames(store: F.Store, queue: seq<nat>, maxLen: nat, name: nat)
    requires F.Refers(queue, |store|)
    ensures var r := F.PopRetransmissions(store, queue, maxLen);
      && (name in queue ==> name in r.queue || name in r.ids)
      && (|store| <= name < |r.store| ==> name in r.ids)
  {
    var t, r := F.TakeWhole(store, queue, 0, maxLen), F.PopRetransmissions(store, queue, maxLen);
    assert name in t.ids + t.queue <==> name in queue;
    assert r.queue == t.queue;
    if F.Splits(t, maxLen) {
      assert r.ids == t.ids + [|store|] && |r.store| == |store| + 1;
    } else {
      assert r == t;
    }
  }

  /** A queued frame stays queued or is in the packet, and so is every new object. */
  lemma {:induction false} ComposeNames(
    framer: F.State, order: seq<nat>, space: nat, negotiated: FC.Negotiated, name: nat)
    requires F.Refers(framer.queue, |framer.store|)
    ensures var (framer', ids) := P.ComposeData(framer, order, space, negotiated);
      && (name in framer.queue ==> name in framer'.queue || name in ids)
      && (|framer.store| <= name < |framer'.store| ==> name in ids)
  {
    var r, w := F.PopRetransmissions(framer.store, framer.queue, space), F.NewFrames(framer, order, space, negotiated);
    TakenNames(framer.store, framer.queue, space, name);
    F.NewFramesStored(framer, order, space, negotiated);
    F.RangeAbove(|r.store|, |w.frames|, name);
  }
}
