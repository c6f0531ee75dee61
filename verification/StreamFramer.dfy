/**
  How STREAM frames are made for a packet (quic-go/stream_framer.go): first from the retransmission queue,
  splitting a frame that does not fit, then from the streams in the order of the round robin, within the
  peer's flow control windows. The order of the streams is a parameter.

  A frame is an object that sent packets and the retransmission queue share, and that is changed in place. All
  frame objects made so far are kept in a store, and a frame is named by its position there. The same frame can
  be in the queue more than once.
 */
module StreamFramer {
  import opened Basics
  import opened IdLists
  import opened StreamFrames
  import Codec = StreamFrameCodec
  import W = SendStream
  import FC = FlowControlManager
  import FlowController

  type Store = seq<StreamFrame>

  datatype State = State(writers: map<nat, W.State>, fc: FC.State, store: Store, queue: seq<nat>, blocked: seq<nat>)

  // ----- Frame objects -----

  /** All names are names of frames in a store of size `n`. */
  predicate Refers(ids: seq<nat>, n: nat) {
    ids == [] || (ids[0] < n && Refers(ids[1..], n))
  }

  /** What the named frames hold at the moment. */
  function Frames(store: Store, ids: seq<nat>): (fs: seq<StreamFrame>)
    requires Refers(ids, |store|)
    ensures |fs| == |ids|
  {
    if ids == [] then [] else [store[ids[0]]] + Frames(store, ids[1..])
  }

  lemma {:induction false} RefersAppend(a: seq<nat>, b: seq<nat>, n: nat)
    ensures Refers(a + b, n) <==> Refers(a, n) && Refers(b, n)
  {
    if a == [] {
      assert a + b == b;
    } else {
      RefersAppend(a[1..], b, n);
      assert (a + b)[1..] == a[1..] + b;
    }
  }

  lemma {:induction false} RefersMore(ids: seq<nat>, n: nat, m: nat)
    requires Refers(ids, n) && n <= m
    ensures Refers(ids, m)
  {
    if ids != [] {
      RefersMore(ids[1..], n, m);
    }
  }

  lemma {:induction false} RefersIn(ids: seq<nat>, n: nat, id: nat)
    requires Refers(ids, n) && id in ids
    ensures id < n
  {
    if ids[0] != id {
      RefersIn(ids[1..], n, id);
    }
  }

  lemma {:induction false} FramesCons(store: Store, id: nat, ids: seq<nat>)
    requires id < |store| && Refers(ids, |store|)
    ensures Refers([id] + ids, |store|) && Frames(store, [id] + ids) == [store[id]] + Frames(store, ids)
    ensures Refers([id], |store|) && Frames(store, [id]) == [store[id]]
  {
    assert ([id] + ids)[1..] == ids && [id][1..] == [];
    assert Frames(store, []) == [];
  }

  lemma {:induction false} FramesFirst(store: Store, id: nat, rest: seq<nat>, ids: seq<nat>)
    requires id < |store| && Refers(rest, |store|) && ids != [] && ids[0] == id && ids[1..] == rest
    ensures Refers(ids, |store|) && Frames(store, ids) == [store[id]] + Frames(store, rest)
  {
  }

  lemma {:induction false} FramesAppend(store: Store, a: seq<nat>, b: seq<nat>)
    requires Refers(a, |store|) && Refers(b, |store|)
    ensures Refers(a + b, |store|) && Frames(store, a + b) == Frames(store, a) + Frames(store, b)
  {
    if a == [] {
      assert a + b == b;
    } else {
      var rest := a[1..];
      FramesAppend(store, rest, b);
      FramesFirst(store, a[0], rest, a);
      FramesFirst(store, a[0], rest + b, a + b);
      Associate([store[a[0]]], Frames(store, rest), Frames(store, b));
    }
  }

  /** Frames made later do not change the others. */
  lemma {:induction false} FramesOlder(store: Store, more: Store, ids: seq<nat>)
    requires Refers(ids, |store|)
    ensures Refers(ids, |store + more|) && Frames(store + more, ids) == Frames(store, ids)
  {
    if ids != [] {
      FramesOlder(store, more, ids[1..]);
    }
  }

  lemma {:induction false} FramesElsewhere(store: Store, ids: seq<nat>, x: nat, v: StreamFrame)
    requires Refers(ids, |store|) && x < |store| && x !in ids
    ensures Frames(store[x := v], ids) == Frames(store, ids)
  {
    if ids != [] {
      FramesElsewhere(store, ids[1..], x, v);
    }
  }

  /** The names of the next `n` frames. */
  function Range(first: nat, n: nat): (ids: seq<nat>)
    ensures |ids| == n
    decreases n
  {
    if n == 0 then [] else [first] + Range(first + 1, n - 1)
  }

  lemma {:induction false} FramesOfRange(store: Store, more: Store)
    ensures Refers(Range(|store|, |more|), |store + more|)
    ensures Frames(store + more, Range(|store|, |more|)) == more
    decreases |more|
  {
    if more != [] {
      var store' := store + [more[0]];
      FramesOfRange(store', more[1..]);
      assert store' + more[1..] == store + more;
      var ids := Range(|store|, |more|);
      assert ids[1..] == Range(|store'|, |more[1..]|);
    }
  }

  lemma {:induction false} RangeAbove(first: nat, n: nat, id: nat)
    ensures id in Range(first, n) <==> first <= id < first + n
    decreases n
  {
    if n > 0 {
      RangeAbove(first + 1, n - 1, id);
    }
  }

  // ----- Lengths -----

  function Length(f: StreamFrame): nat {
    Codec.MinLength(f) + |f.data|
  }

  function TotalLength(fs: seq<StreamFrame>): nat {
    if fs == [] then 0 else Length(fs[0]) + TotalLength(fs[1..])
  }

  /** Every frame has a length field. */
  predicate Delimited(fs: seq<StreamFrame>) {
    fs == [] || (fs[0].dataLenPresent && Delimited(fs[1..]))
  }

  lemma {:induction false} LengthCons(f: StreamFrame, fs: seq<StreamFrame>)
    ensures TotalLength([f] + fs) == Length(f) + TotalLength(fs)
    ensures TotalLength([f]) == Length(f)
    ensures Delimited([f] + fs) <==> f.dataLenPresent && Delimited(fs)
    ensures Delimited([f]) <==> f.dataLenPresent
  {
    assert ([f] + fs)[1..] == fs && [f][1..] == [];
    assert TotalLength([]) == 0 && Delimited([]);
  }

  lemma {:induction false} LengthAppend(a: seq<StreamFrame>, b: seq<StreamFrame>)
    ensures TotalLength(a + b) == TotalLength(a) + TotalLength(b)
    ensures Delimited(a + b) <==> Delimited(a) && Delimited(b)
  {
    if a == [] {
      assert a + b == b;
    } else {
      LengthAppend(a[1..], b);
      assert (a + b)[1..] == a[1..] + b;
    }
  }

  /** What changing one frame in place does to the length of a packet that may hold it several times. */
  lemma {:induction false} LengthUpdate(store: Store, ids: seq<nat>, x: nat, v: StreamFrame)
    requires Refers(ids, |store|) && x < |store|
    ensures var was, now := TotalLength(Frames(store, ids)), TotalLength(Frames(store[x := v], ids));
      && (x !in ids ==> now == was)
      && (Length(v) <= Length(store[x]) ==> now <= was)
      && (Length(v) < Length(store[x]) && x in ids ==> now <= was - (Length(store[x]) - Length(v)))
      && (Length(v) > Length(store[x]) && x in ids ==> now > was)
      && (Length(v) <= 2 * Length(store[x]) ==> now <= 2 * was)
  {
    if ids != [] {
      LengthUpdate(store, ids[1..], x, v);
      LengthCons(store[ids[0]], Frames(store, ids[1..]));
      LengthCons(store[x := v][ids[0]], Frames(store[x := v], ids[1..]));
    }
  }

  lemma {:induction false} DelimitedUpdate(store: Store, ids: seq<nat>, x: nat, v: StreamFrame)
    requires Refers(ids, |store|) && x < |store| && v.dataLenPresent && Delimited(Frames(store, ids))
    ensures Delimited(Frames(store[x := v], ids))
  {
    if ids != [] {
      LengthCons(store[ids[0]], Frames(store, ids[1..]));
      DelimitedUpdate(store, ids[1..], x, v);
      LengthCons(store[x := v][ids[0]], Frames(store[x := v], ids[1..]));
    }
  }

  function Payload(fs: seq<StreamFrame>): seq<byte> {
    if fs == [] then [] else fs[0].data + Payload(fs[1..])
  }

  lemma {:induction false} PayloadCons(f: StreamFrame, fs: seq<StreamFrame>)
    ensures Payload([f] + fs) == f.data + Payload(fs)
    ensures Payload([f]) == f.data
  {
    assert ([f] + fs)[1..] == fs && [f][1..] == [];
    assert Payload([]) == [];
  }

  lemma {:induction false} PayloadAppend(a: seq<StreamFrame>, b: seq<StreamFrame>)
    ensures Payload(a + b) == Payload(a) + Payload(b)
  {
    if a == [] {
      assert a + b == b;
    } else {
      PayloadAppend(a[1..], b);
      assert (a + b)[1..] == a[1..] + b;
      Associate(a[0].data, Payload(a[1..]), Payload(b));
    }
  }

  lemma {:induction false} PayloadUpdate(store: Store, ids: seq<nat>, x: nat, v: StreamFrame)
    requires Refers(ids, |store|) && x < |store| && |v.data| <= |store[x].data|
    ensures var was, now := |Payload(Frames(store, ids))|, |Payload(Frames(store[x := v], ids))|;
      now <= was && (x in ids ==> now + |store[x].data| <= was + |v.data|)
  {
    if ids != [] {
      PayloadUpdate(store, ids[1..], x, v);
      PayloadCons(store[ids[0]], Frames(store, ids[1..]));
      PayloadCons(store[x := v][ids[0]], Frames(store[x := v], ids[1..]));
    }
  }

  // ----- Retransmissions -----

  /** Frames taken from the queue, what is left of it, and the bytes used so far. */
  datatype Taken = Taken(store: Store, ids: seq<nat>, queue: seq<nat>, used: nat)

  /** A frame that is to be sent again gets a length field. */
  function Marked(store: Store, id: nat): Store
    requires id < |store|
  {
    store[id := store[id].(dataLenPresent := true)]
  }

  predicate Fits(f: StreamFrame, used: nat, maxLen: nat) {
    used + Codec.MinLength(f) < maxLen && used + Length(f) <= maxLen
  }

  /** Take frames as long as they fit as a whole. */
  function TakeWhole(store: Store, queue: seq<nat>, used: nat, maxLen: nat): (t: Taken)
    requires Refers(queue, |store|)
    ensures |t.store| == |store| && Refers(t.ids, |store|) && Refers(t.queue, |store|)
    ensures t.ids + t.queue == queue
    ensures t.queue != [] ==> t.store[t.queue[0]].dataLenPresent && !Fits(t.store[t.queue[0]], t.used, maxLen)
    decreases |queue|
  {
    if queue == [] then Taken(store, [], [], used)
    else
      var id, store1 := queue[0], Marked(store, queue[0]);
      var f := store1[id];
      if !Fits(f, used, maxLen) then Taken(store1, [], queue, used)
      else
        var more := TakeWhole(store1, queue[1..], used + Length(f), maxLen);
        more.(ids := [id] + more.ids)
  }

  /** There is space for the beginning of the next frame. */
  predicate Splits(t: Taken, maxLen: nat)
    requires Refers(t.queue, |t.store|)
  {
    t.queue != [] && t.used + Codec.MinLength(t.store[t.queue[0]]) < maxLen
  }

  /** How many bytes of the next frame find space. */
  function SplitAt(t: Taken, maxLen: nat): (n: nat)
    requires Refers(t.queue, |t.store|) && Splits(t, maxLen)
    requires !Fits(t.store[t.queue[0]], t.used, maxLen)
    ensures 0 < n < |t.store[t.queue[0]].data|
  {
    maxLen - t.used - Codec.MinLength(t.store[t.queue[0]])
  }

  /** The first `n` bytes as a frame of their own; the FIN stays with the rest. */
  function SplitOff(f: StreamFrame, n: nat): (StreamFrame, StreamFrame)
    requires n < |f.data|
  {
    (f.Take(n).(fin := false), f.Drop(n))
  }

  /** Send the beginning of the next frame as a new frame; the frame itself is cut in place and stays queued. */
  function Split(t: Taken, maxLen: nat): Taken
    requires Refers(t.queue, |t.store|) && Splits(t, maxLen)
    requires !Fits(t.store[t.queue[0]], t.used, maxLen)
  {
    var id := t.queue[0];
    var (first, rest) := SplitOff(t.store[id], SplitAt(t, maxLen));
    Taken(t.store[id := rest] + [first], t.ids + [|t.store|], t.queue, maxLen)
  }

  function PopRetransmissions(store: Store, queue: seq<nat>, maxLen: nat): (r: Taken)
    requires Refers(queue, |store|)
    ensures |store| <= |r.store| && Refers(r.ids, |r.store|) && Refers(r.queue, |r.store|)
  {
    var t := TakeWhole(store, queue, 0, maxLen);
    if !Splits(t, maxLen) then t
    else
      RefersMore(t.ids, |t.store|, |t.store| + 1);
      RefersMore(t.queue, |t.store|, |t.store| + 1);
      RefersAppend(t.ids, [|t.store|], |t.store| + 1);
      Split(t, maxLen)
  }

  /** The frame that is cut in place also stands in the packet already, or once more in the queue. */
  predicate CutsTaken(t: Taken, maxLen: nat)
    requires Refers(t.queue, |t.store|)
  {
    Splits(t, maxLen) && t.queue[0] in t.ids
  }

  predicate CutsQueued(t: Taken, maxLen: nat)
    requires Refers(t.queue, |t.store|)
  {
    Splits(t, maxLen) && t.queue[0] in t.queue[1..]
  }

  /** Marking and taking leaves a marked frame as it is. */
  lemma {:induction false} TakeWholeKeeps(store: Store, queue: seq<nat>, used: nat, maxLen: nat, id: nat)
    requires Refers(queue, |store|) && id < |store|
    ensures var t := TakeWhole(store, queue, used, maxLen);
      && t.store[id].(dataLenPresent := true) == store[id].(dataLenPresent := true)
      && (store[id].dataLenPresent ==> t.store[id] == store[id])
    decreases |queue|
  {
    if queue != [] {
      var f := Marked(store, queue[0])[queue[0]];
      if Fits(f, used, maxLen) {
        TakeWholeKeeps(Marked(store, queue[0]), queue[1..], used + Length(f), maxLen, id);
      }
    }
  }

  /** The named frames have length fields and take the space from `used` to `end`. */
  ghost predicate Counted(store: Store, ids: seq<nat>, used: nat, end: nat) {
    && Refers(ids, |store|)
    && end == used + TotalLength(Frames(store, ids))
    && Delimited(Frames(store, ids))
  }

  lemma {:induction false} CountedCons(store: Store, id: nat, ids: seq<nat>, used: nat, next: nat, end: nat)
    requires id < |store| && store[id].dataLenPresent && next == used + Length(store[id])
    requires Counted(store, ids, next, end)
    ensures Counted(store, [id] + ids, used, end)
  {
    FramesCons(store, id, ids);
    LengthCons(store[id], Frames(store, ids));
  }

  /** As long as frames are taken whole, they take the space counted, also if one is taken twice. */
  lemma {:induction false} TakeWholeFits(store: Store, queue: seq<nat>, used: nat, maxLen: nat)
    requires Refers(queue, |store|) && used <= maxLen
    ensures var t := TakeWhole(store, queue, used, maxLen); Counted(t.store, t.ids, used, t.used) && t.used <= maxLen
    decreases |queue|
  {
    if queue != [] {
      var id, store1 := queue[0], Marked(store, queue[0]);
      var f := store1[id];
      if Fits(f, used, maxLen) {
        var next := used + Length(f);
        var more := TakeWhole(store1, queue[1..], next, maxLen);
        assert TakeWhole(store, queue, used, maxLen) == more.(ids := [id] + more.ids);
        assert Counted(more.store, [id] + more.ids, used, more.used) && more.used <= maxLen by {
          TakeWholeFits(store1, queue[1..], next, maxLen);
          TakeWholeKeeps(store1, queue[1..], next, maxLen, id);
          CountedCons(more.store, id, more.ids, used, next, more.used);
        }
      }
    }
  }

  /** Cutting a frame makes it longer only if it loses the one byte that stood at offset zero. */
  lemma {:induction false} CutLength(f: StreamFrame, n: nat)
    requires 0 < n < |f.data|
    ensures Length(f.Drop(n)) > Length(f) <==> f.offset == 0 && n == 1
    ensures Length(f.Drop(n)) <= Length(f) + 1 <= 2 * Length(f)
  {
    OffsetLengthGrows(f.offset, n);
  }

  lemma {:induction false} OffsetLengthGrows(offset: nat, n: nat)
    requires 0 < n
    ensures Codec.OffsetLength(offset + n) <= Codec.OffsetLength(offset) + n + (if offset == 0 && n == 1 then 1 else 0)
    ensures offset == 0 && n == 1 ==> Codec.OffsetLength(offset + n) == Codec.OffsetLength(offset) + n + 1
  {
  }

  /** The frame at offset zero that loses one byte stands in the packet already, and grows there. */
  predicate Overflows(t: Taken, maxLen: nat)
    requires Refers(t.queue, |t.store|) && (t.queue != [] ==> !Fits(t.store[t.queue[0]], t.used, maxLen))
  {
    CutsTaken(t, maxLen) && t.store[t.queue[0]].offset == 0 && SplitAt(t, maxLen) == 1
  }

  /** What a split puts into the packet, and what it does to the frames that are there. */
  lemma {:induction false} SplitFrames(t: Taken, maxLen: nat)
    requires Refers(t.ids, |t.store|) && Refers(t.queue, |t.store|) && Splits(t, maxLen)
    requires !Fits(t.store[t.queue[0]], t.used, maxLen)
    ensures var r := Split(t, maxLen);
      var (first, rest) := SplitOff(t.store[t.queue[0]], SplitAt(t, maxLen));
      && Refers(r.ids, |r.store|) && Refers(r.queue, |r.store|)
      && Frames(r.store, r.ids) == Frames(t.store[t.queue[0] := rest], t.ids) + [first]
      && Frames(r.store, r.queue) == Frames(t.store[t.queue[0] := rest], t.queue)
      && t.used + Length(first) == maxLen
  {
    var (first, rest) := SplitOff(t.store[t.queue[0]], SplitAt(t, maxLen));
    var cut := t.store[t.queue[0] := rest];
    FramesOlder(cut, [first], t.ids);
    FramesOlder(cut, [first], t.queue);
    FramesCons(cut + [first], |t.store|, []);
    FramesAppend(cut + [first], t.ids, [|t.store|]);
  }

  /**
    The retransmitted frames have length fields. Unless one is cut that stands in the packet already, they take
    exactly the space counted; in any case they fit if and only if none grows that way.
   */
  lemma {:induction false} RetransmissionsFit(store: Store, queue: seq<nat>, maxLen: nat)
    requires Refers(queue, |store|)
    ensures var t, r := TakeWhole(store, queue, 0, maxLen), PopRetransmissions(store, queue, maxLen);
      var total := TotalLength(Frames(r.store, r.ids));
      && Delimited(Frames(r.store, r.ids))
      && r.used <= maxLen
      && (!CutsTaken(t, maxLen) ==> total == r.used)
      && (total <= r.used <==> !Overflows(t, maxLen))
      && (Overflows(t, maxLen) ==> r.used == maxLen)
      && total <= 2 * maxLen
  {
    var t := TakeWhole(store, queue, 0, maxLen);
    TakeWholeFits(store, queue, 0, maxLen);
    if Splits(t, maxLen) {
      var x := t.queue[0];
      var (first, rest) := SplitOff(t.store[x], SplitAt(t, maxLen));
      SplitFrames(t, maxLen);
      CutLength(t.store[x], SplitAt(t, maxLen));
      LengthUpdate(t.store, t.ids, x, rest);
      DelimitedUpdate(t.store, t.ids, x, rest);
      LengthAppend(Frames(t.store[x := rest], t.ids), [first]);
      LengthCons(first, []);
    }
  }

  lemma {:induction false} PayloadMarked(store: Store, queue: seq<nat>, maxLen: nat, ids: seq<nat>)
    requires Refers(queue, |store|) && Refers(ids, |store|)
    ensures Payload(Frames(TakeWhole(store, queue, 0, maxLen).store, ids)) == Payload(Frames(store, ids))
    decreases |ids|
  {
    if ids != [] {
      var t := TakeWhole(store, queue, 0, maxLen);
      PayloadMarked(store, queue, maxLen, ids[1..]);
      TakeWholeKeeps(store, queue, 0, maxLen, ids[0]);
      PayloadCons(store[ids[0]], Frames(store, ids[1..]));
      PayloadCons(t.store[ids[0]], Frames(t.store, ids[1..]));
    }
  }

  lemma {:induction false} PayloadSplit(t: Taken, maxLen: nat)
    requires Refers(t.ids, |t.store|) && Refers(t.queue, |t.store|) && Splits(t, maxLen)
    requires !Fits(t.store[t.queue[0]], t.used, maxLen)
    ensures var r := Split(t, maxLen);
      && Refers(r.ids, |r.store|) && Refers(r.queue, |r.store|)
      && (Payload(Frames(r.store, r.ids)) + Payload(Frames(r.store, r.queue))
            == Payload(Frames(t.store, t.ids)) + Payload(Frames(t.store, t.queue))
          <==> !CutsTaken(t, maxLen) && !CutsQueued(t, maxLen))
  {
    var x, tail, n := t.queue[0], t.queue[1..], SplitAt(t, maxLen);
    var (first, rest) := SplitOff(t.store[x], n);
    var cut := t.store[x := rest];
    SplitFrames(t, maxLen);
    PayloadAppend(Frames(cut, t.ids), [first]);
    PayloadCons(first, []);
    PayloadCons(rest, Frames(cut, tail));
    PayloadCons(t.store[x], Frames(t.store, tail));
    if x !in t.ids && x !in tail {
      FramesElsewhere(t.store, t.ids, x, rest);
      FramesElsewhere(t.store, tail, x, rest);
      SplitJoins(Payload(Frames(t.store, t.ids)), first.data, rest.data, Payload(Frames(t.store, tail)));
      assert first.data + rest.data == t.store[x].data;
    } else {
      PayloadUpdate(t.store, t.ids, x, rest);
      PayloadUpdate(t.store, tail, x, rest);
    }
  }

  lemma {:induction false} SplitJoins(a: seq<byte>, b: seq<byte>, c: seq<byte>, d: seq<byte>)
    ensures (a + b) + (c + d) == a + ((b + c) + d)
  {
  }

  /**
    What is taken and what is left add up to what was queued, if and only if the frame that is cut stands only
    once in the queue: a frame cut in place loses the same bytes everywhere.
   */
  lemma {:induction false} RetransmissionsComplete(store: Store, queue: seq<nat>, maxLen: nat)
    requires Refers(queue, |store|)
    ensures var t, r := TakeWhole(store, queue, 0, maxLen), PopRetransmissions(store, queue, maxLen);
      !CutsTaken(t, maxLen) && !CutsQueued(t, maxLen) <==>
        Payload(Frames(r.store, r.ids)) + Payload(Frames(r.store, r.queue)) == Payload(Frames(store, queue))
  {
    var t := TakeWhole(store, queue, 0, maxLen);
    FramesAppend(t.store, t.ids, t.queue);
    PayloadAppend(Frames(t.store, t.ids), Frames(t.store, t.queue));
    PayloadMarked(store, queue, maxLen, queue);
    if Splits(t, maxLen) {
      PayloadSplit(t, maxLen);
    }
  }

  /** The frames as they are at the moment they are put into the packet. */
  function Resent(store: Store, queue: seq<nat>, maxLen: nat): seq<StreamFrame>
    requires Refers(queue, |store|)
  {
    var t := TakeWhole(store, queue, 0, maxLen);
    Frames(t.store, t.ids)
    + (if Splits(t, maxLen) then [SplitOff(t.store[t.queue[0]], SplitAt(t, maxLen)).0] else [])
  }

  function CountRetransmitted(fc: FC.State, fs: seq<StreamFrame>): FC.State
    decreases |fs|
  {
    if fs == [] then fc else CountRetransmitted(FC.Retransmit(fc, fs[0].streamID, |fs[0].data|).0, fs[1..])
  }

  // ----- New data -----

  datatype Visit = Visit(st: State, frame: Option<StreamFrame>, goOn: bool)

  /** One stream's turn: make a frame from its data, or only its FIN, as far as space and windows allow. */
  function VisitStream(st: State, id: nat, used: nat, maxBytes: nat, negotiated: FC.Negotiated): Visit {
    if id !in st.writers || id == 1 then Visit(st, None, true)
    else
      var w := st.writers[id];
      var header := Codec.MinLength(StreamFrame(id, false, true, w.offset, []));
      if used + header > maxBytes then Visit(st, None, false)
      else
        var len := W.LenOfDataForWriting(w);
        var window := if len != 0 then FC.SendWindow(st.fc, id, negotiated) else 0;
        var space := maxBytes - used - header;
        var maxLen := if len != 0 then Min(space, window) else space;
        if maxLen == 0 then Visit(st, None, true)
        else
          var (w1, data) := if len != 0 then W.GetDataForWriting(w, maxLen) else (w, None);
          var fin := W.ShouldSendFin(w1);
          if data.None? && !fin then Visit(st, None, true)
          else
            var w2 := if fin then W.SentFin(w1) else w1;
            Emit(st, id, w.offset, w2, data, fin, used + header, maxBytes, window, negotiated)
  }

  /** Send the frame, count its bytes, and remember if a window is used up now. */
  function Emit(
    st: State, id: nat, offset: nat, w: W.State, data: Option<seq<byte>>, fin: bool,
    used: nat, maxBytes: nat, window: nat, negotiated: FC.Negotiated): Visit
  {
    var bytes := if data.None? then [] else data.value;
    var fc := FC.Send(st.fc, id, |bytes|).0;
    var blocked :=
      if FlowController.SendWindowSize(fc.conn, negotiated.conn) == 0 then st.blocked + [0]
      else if !fin && window == |bytes| then st.blocked + [id]
      else st.blocked;
    var f := StreamFrame(id, fin, true, offset, bytes);
    Visit(
      st.(writers := st.writers[id := w], fc := fc, store := st.store + [f], blocked := blocked),
      Some(f),
      used + |bytes| != maxBytes)
  }

  function Made(frame: Option<StreamFrame>): seq<StreamFrame> {
    if frame.None? then [] else [frame.value]
  }

  /** Frames made on a walk over the streams, which ends when a stream finds no more space. */
  datatype Walk = Walk(st: State, frames: seq<StreamFrame>, used: nat)

  function WalkStreams(st: State, order: seq<nat>, used: nat, maxBytes: nat, negotiated: FC.Negotiated): Walk
    decreases |order|
  {
    if order == [] then Walk(st, [], used)
    else
      var v := VisitStream(st, order[0], used, maxBytes, negotiated);
      var used' := used + if v.frame.None? then 0 else Length(v.frame.value);
      if !v.goOn then Walk(v.st, Made(v.frame), used')
      else
        var rest := WalkStreams(v.st, order[1..], used', maxBytes, negotiated);
        rest.(frames := Made(v.frame) + rest.frames)
  }

  /** The new state, and the frames of the packet. */
  function PopStreamFrames(st: State, order: seq<nat>, maxLen: nat, negotiated: FC.Negotiated): (State, seq<nat>)
    requires Refers(st.queue, |st.store|)
  {
    var w := NewFrames(st, order, maxLen, negotiated);
    var r := PopRetransmissions(st.store, st.queue, maxLen);
    (w.st, r.ids + Range(|r.store|, |w.frames|))
  }

  /** The state once the retransmissions are taken. */
  function AfterRetransmissions(st: State, maxLen: nat): State
    requires Refers(st.queue, |st.store|)
  {
    var r := PopRetransmissions(st.store, st.queue, maxLen);
    st.(store := r.store, queue := r.queue, fc := CountRetransmitted(st.fc, Resent(st.store, st.queue, maxLen)))
  }

  /** The walk over the streams fills the space that retransmissions leave. */
  function NewFrames(st: State, order: seq<nat>, maxLen: nat, negotiated: FC.Negotiated): Walk
    requires Refers(st.queue, |st.store|)
  {
    var used := PopRetransmissions(st.store, st.queue, maxLen).used;
    WalkStreams(AfterRetransmissions(st, maxLen), order, 0, if used <= maxLen then maxLen - used else 0, negotiated)
  }

  // ----- Space -----

  /** A new frame fits into the space that is left, and has a length field. */
  lemma {:induction false} VisitFits(st: State, id: nat, used: nat, maxBytes: nat, negotiated: FC.Negotiated)
    requires used <= maxBytes
    ensures var v := VisitStream(st, id, used, maxBytes, negotiated);
      v.frame.Some? ==> used + Length(v.frame.value) <= maxBytes && v.frame.value.dataLenPresent
  {
  }

  lemma {:induction false} WalkFits(st: State, order: seq<nat>, used: nat, maxBytes: nat, negotiated: FC.Negotiated)
    requires used <= maxBytes
    ensures var w := WalkStreams(st, order, used, maxBytes, negotiated);
      w.used == used + TotalLength(w.frames) && w.used <= maxBytes && Delimited(w.frames)
    decreases |order|
  {
    if order != [] {
      VisitFits(st, order[0], used, maxBytes, negotiated);
      var v := VisitStream(st, order[0], used, maxBytes, negotiated);
      var used' := used + if v.frame.None? then 0 else Length(v.frame.value);
      if v.goOn {
        WalkFits(v.st, order[1..], used', maxBytes, negotiated);
      }
      var rest := if v.goOn then WalkStreams(v.st, order[1..], used', maxBytes, negotiated).frames else [];
      if v.frame.Some? {
        LengthCons(v.frame.value, rest);
      } else {
        assert [] + rest == rest;
      }
    }
  }

  lemma {:induction false} WalkStores(st: State, order: seq<nat>, used: nat, maxBytes: nat, negotiated: FC.Negotiated)
    ensures var w := WalkStreams(st, order, used, maxBytes, negotiated);
      w.st.store == st.store + w.frames && w.st.queue == st.queue
    decreases |order|
  {
    if order != [] {
      var v := VisitStream(st, order[0], used, maxBytes, negotiated);
      var used' := used + if v.frame.None? then 0 else Length(v.frame.value);
      assert v.st.store == st.store + Made(v.frame) && v.st.queue == st.queue;
      if v.goOn {
        WalkStores(v.st, order[1..], used', maxBytes, negotiated);
        Associate(st.store, Made(v.frame), WalkStreams(v.st, order[1..], used', maxBytes, negotiated).frames);
      }
    } else {
      assert st.store + [] == st.store;
    }
  }

  /** No frame has more data than fit into `n` bytes with a header and a length field. */
  predicate Small(fs: seq<StreamFrame>, n: nat) {
    fs == [] || (|fs[0].data| + 4 <= n && Small(fs[1..], n))
  }

  lemma {:induction false} SmallFrames(fs: seq<StreamFrame>, n: nat)
    requires Delimited(fs) && TotalLength(fs) <= n
    ensures Small(fs, n)
  {
    if fs != [] {
      SmallFrames(fs[1..], n);
    }
  }

  lemma {:induction false} SmallAppend(a: seq<StreamFrame>, b: seq<StreamFrame>, n: nat)
    ensures Small(a + b, n) <==> Small(a, n) && Small(b, n)
  {
    if a == [] {
      assert a + b == b;
    } else {
      SmallAppend(a[1..], b, n);
      assert (a + b)[1..] == a[1..] + b;
    }
  }

  lemma {:induction false} SmallUpdate(store: Store, ids: seq<nat>, x: nat, v: StreamFrame, n: nat)
    requires Refers(ids, |store|) && x < |store| && |v.data| <= |store[x].data| && Small(Frames(store, ids), n)
    ensures Small(Frames(store[x := v], ids), n)
  {
    if ids != [] {
      assert Frames(store, ids)[1..] == Frames(store, ids[1..]);
      SmallUpdate(store, ids[1..], x, v, n);
      assert Frames(store[x := v], ids)[1..] == Frames(store[x := v], ids[1..]);
    }
  }

  lemma {:induction false} RetransmissionsSmall(store: Store, queue: seq<nat>, maxLen: nat)
    requires Refers(queue, |store|)
    ensures var r := PopRetransmissions(store, queue, maxLen); Small(Frames(r.store, r.ids), maxLen)
  {
    var t := TakeWhole(store, queue, 0, maxLen);
    TakeWholeFits(store, queue, 0, maxLen);
    SmallFrames(Frames(t.store, t.ids), maxLen);
    if Splits(t, maxLen) {
      var x := t.queue[0];
      var (first, rest) := SplitOff(t.store[x], SplitAt(t, maxLen));
      SplitFrames(t, maxLen);
      SmallUpdate(t.store, t.ids, x, rest, maxLen);
      assert Small([first], maxLen) by {
        assert [first][1..] == [];
      }
      SmallAppend(Frames(t.store[x := rest], t.ids), [first], maxLen);
    }
  }

  lemma {:induction false} NewFramesStored(st: State, order: seq<nat>, maxLen: nat, negotiated: FC.Negotiated)
    requires Refers(st.queue, |st.store|)
    ensures var r, w := PopRetransmissions(st.store, st.queue, maxLen), NewFrames(st, order, maxLen, negotiated);
      w.st.store == r.store + w.frames && w.st.queue == r.queue
  {
    var used := PopRetransmissions(st.store, st.queue, maxLen).used;
    WalkStores(AfterRetransmissions(st, maxLen), order, 0, if used <= maxLen then maxLen - used else 0, negotiated);
  }

  lemma {:induction false} FramesJoin(store: Store, ids: seq<nat>, more: Store)
    requires Refers(ids, |store|)
    ensures Refers(ids + Range(|store|, |more|), |store + more|)
    ensures Frames(store + more, ids + Range(|store|, |more|)) == Frames(store, ids) + more
  {
    FramesOfRange(store, more);
    FramesOlder(store, more, ids);
    FramesAppend(store + more, ids, Range(|store|, |more|));
  }

  /** The frames of a packet: the retransmitted ones, and then the new ones. */
  lemma {:induction false} PoppedFrames(st: State, order: seq<nat>, maxLen: nat, negotiated: FC.Negotiated)
    requires Refers(st.queue, |st.store|)
    ensures var (st', ids) := PopStreamFrames(st, order, maxLen, negotiated);
      var r := PopRetransmissions(st.store, st.queue, maxLen);
      && Refers(ids, |st'.store|) && Refers(st'.queue, |st'.store|)
      && Frames(st'.store, ids) == Frames(r.store, r.ids) + NewFrames(st, order, maxLen, negotiated).frames
  {
    var r, w := PopRetransmissions(st.store, st.queue, maxLen), NewFrames(st, order, maxLen, negotiated);
    NewFramesStored(st, order, maxLen, negotiated);
    FramesJoin(r.store, r.ids, w.frames);
    RefersMore(r.queue, |r.store|, |w.st.store|);
  }

  lemma {:induction false} NewFramesFit(
    st: State, order: seq<nat>, maxLen: nat, negotiated: FC.Negotiated, used: nat)
    requires Refers(st.queue, |st.store|) && used <= maxLen
    requires used == PopRetransmissions(st.store, st.queue, maxLen).used
    ensures var made := NewFrames(st, order, maxLen, negotiated).frames;
      Delimited(made) && TotalLength(made) <= maxLen - used
  {
    WalkedFits(
      AfterRetransmissions(st, maxLen), order, maxLen - used, negotiated,
      NewFrames(st, order, maxLen, negotiated).frames);
  }

  lemma {:induction false} WalkedFits(
    st: State, order: seq<nat>, space: nat, negotiated: FC.Negotiated, made: seq<StreamFrame>)
    requires made == WalkStreams(st, order, 0, space, negotiated).frames
    ensures Delimited(made) && TotalLength(made) <= space
  {
    WalkFits(st, order, 0, space, negotiated);
  }

  /**
    All frames of a packet together, each with its length field, fit into the space asked for, if and only if no
    frame that is in the packet already grows by being cut.
   */
  lemma {:induction false} PopFits(st: State, order: seq<nat>, maxLen: nat, negotiated: FC.Negotiated)
    requires Refers(st.queue, |st.store|)
    ensures var (st', ids) := PopStreamFrames(st, order, maxLen, negotiated);
      && Refers(ids, |st'.store|)
      && var fs := Frames(st'.store, ids);
      && Delimited(fs) && Small(fs, maxLen) && TotalLength(fs) <= 3 * maxLen
      && (TotalLength(fs) <= maxLen <==> !Overflows(TakeWhole(st.store, st.queue, 0, maxLen), maxLen))
  {
    var t, r := TakeWhole(st.store, st.queue, 0, maxLen), PopRetransmissions(st.store, st.queue, maxLen);
    var again, made := Frames(r.store, r.ids), NewFrames(st, order, maxLen, negotiated).frames;
    var (st', ids) := PopStreamFrames(st, order, maxLen, negotiated);
    assert Refers(ids, |st'.store|) && Frames(st'.store, ids) == again + made by {
      PoppedFrames(st, order, maxLen, negotiated);
    }
    assert FillsTo(again, r.used, maxLen, Overflows(t, maxLen)) by {
      RetransmissionsFit(st.store, st.queue, maxLen);
      RetransmissionsSmall(st.store, st.queue, maxLen);
    }
    assert Delimited(made) && TotalLength(made) <= maxLen - r.used by {
      NewFramesFit(st, order, maxLen, negotiated, r.used);
    }
    JoinFits(again, made, r.used, maxLen, Overflows(t, maxLen));
  }

  /** The frames fill the space counted for them, or more than all of it if one of them grows. */
  ghost predicate FillsTo(fs: seq<StreamFrame>, used: nat, maxLen: nat, overflows: bool) {
    && Delimited(fs) && Small(fs, maxLen) && TotalLength(fs) <= 2 * maxLen && used <= maxLen
    && (TotalLength(fs) <= used <==> !overflows) && (overflows ==> used == maxLen)
  }

  lemma {:induction false} JoinFits(
    a: seq<StreamFrame>, b: seq<StreamFrame>, used: nat, maxLen: nat, overflows: bool)
    requires FillsTo(a, used, maxLen, overflows)
    requires Delimited(b) && TotalLength(b) <= maxLen - used
    ensures Delimited(a + b) && Small(a + b, maxLen) && TotalLength(a + b) <= 3 * maxLen
    ensures TotalLength(a + b) <= maxLen <==> !overflows
  {
    SmallFrames(b, maxLen);
    SmallAppend(a, b, maxLen);
    LengthAppend(a, b);
  }

  // ----- Flow control -----

  /** Nothing was sent beyond the windows of the peer. */
  ghost predicate WithinWindows(fc: FC.State, negotiated: FC.Negotiated) {
    && fc.conn.bytesSent <= FlowController.SendWindowOffset(fc.conn, negotiated.conn)
    && forall id :: id in fc.streams ==>
        fc.streams[id].bytesSent <= FlowController.SendWindowOffset(fc.streams[id], negotiated.stream)
  }

  /** A WINDOW_UPDATE keeps this, if and only if it is not a first one that cuts off what was sent. */
  lemma {:induction false} PeerWindowWithin(fc: FC.State, id: nat, offset: nat, negotiated: FC.Negotiated)
    requires WithinWindows(fc, negotiated)
    ensures WithinWindows(FC.UpdatePeerWindow(fc, id, offset).0, negotiated) <==> !FC.CutsOff(fc, id, offset)
  {
    var fc' := FC.UpdatePeerWindow(fc, id, offset).0;
    if id == 0 {
      FlowController.UpdateStaysWithin(fc.conn, negotiated.conn, offset);
    } else if id in fc.streams {
      FlowController.UpdateStaysWithin(fc.streams[id], negotiated.stream, offset);
      assert id in fc'.streams;
    }
  }

  /** New agreed windows keep this, if and only if they do not cut off what was sent before the first update. */
  lemma {:induction false} NegotiatedWithin(fc: FC.State, negotiated: FC.Negotiated, negotiated': FC.Negotiated)
    requires WithinWindows(fc, negotiated)
    ensures WithinWindows(fc, negotiated') <==> !FC.CutsOffAgreed(fc, negotiated')
  {
    if !FC.CutsOffAgreed(fc, negotiated') {
      forall id | id in fc.streams
        ensures fc.streams[id].bytesSent <= FlowController.SendWindowOffset(fc.streams[id], negotiated'.stream)
      {
        assert fc.streams[id].sendWindow == 0 ==> fc.streams[id].bytesSent <= negotiated'.stream;
      }
    }
  }

  lemma {:induction false} SendWithin(fc: FC.State, id: nat, n: nat, negotiated: FC.Negotiated)
    requires WithinWindows(fc, negotiated) && (n == 0 || n <= FC.SendWindow(fc, id, negotiated))
    ensures WithinWindows(FC.Send(fc, id, n).0, negotiated)
  {
  }

  lemma {:induction false} RetransmittedWithin(fc: FC.State, fs: seq<StreamFrame>, negotiated: FC.Negotiated)
    requires WithinWindows(fc, negotiated)
    ensures WithinWindows(CountRetransmitted(fc, fs), negotiated)
    decreases |fs|
  {
    if fs != [] {
      RetransmittedWithin(FC.Retransmit(fc, fs[0].streamID, |fs[0].data|).0, fs[1..], negotiated);
    }
  }

  /** New data never exceed the stream's and the connection's window. */
  lemma {:induction false} VisitWithin(st: State, id: nat, used: nat, maxBytes: nat, negotiated: FC.Negotiated)
    requires WithinWindows(st.fc, negotiated)
    ensures var v := VisitStream(st, id, used, maxBytes, negotiated);
      && WithinWindows(v.st.fc, negotiated)
      && (v.frame.Some? && v.frame.value.data != [] ==> |v.frame.value.data| <= FC.SendWindow(st.fc, id, negotiated))
  {
    var v := VisitStream(st, id, used, maxBytes, negotiated);
    if v.frame.Some? {
      SendWithin(st.fc, id, |v.frame.value.data|, negotiated);
    }
  }

  lemma {:induction false} WalkWithin(st: State, order: seq<nat>, used: nat, maxBytes: nat, negotiated: FC.Negotiated)
    requires WithinWindows(st.fc, negotiated)
    ensures WithinWindows(WalkStreams(st, order, used, maxBytes, negotiated).st.fc, negotiated)
    decreases |order|
  {
    if order != [] {
      VisitWithin(st, order[0], used, maxBytes, negotiated);
      var v := VisitStream(st, order[0], used, maxBytes, negotiated);
      var used' := used + if v.frame.None? then 0 else Length(v.frame.value);
      if v.goOn {
        WalkWithin(v.st, order[1..], used', maxBytes, negotiated);
      }
    }
  }

  /** Filling a packet keeps all bytes sent within the windows, whatever is retransmitted. */
  lemma {:induction false} PopWithin(st: State, order: seq<nat>, maxLen: nat, negotiated: FC.Negotiated)
    requires Refers(st.queue, |st.store|) && WithinWindows(st.fc, negotiated)
    ensures WithinWindows(PopStreamFrames(st, order, maxLen, negotiated).0.fc, negotiated)
  {
    var used := PopRetransmissions(st.store, st.queue, maxLen).used;
    RetransmittedWithin(st.fc, Resent(st.store, st.queue, maxLen), negotiated);
    WalkWithin(AfterRetransmissions(st, maxLen), order, 0, if used <= maxLen then maxLen - used else 0, negotiated);
  }

  // ----- Contents -----

  /** Everything handed out by each stream so far. */
  type Contents = map<nat, seq<byte>>

  ghost predicate SenderOk(writers: map<nat, W.State>, contents: Contents) {
    forall id :: id in writers ==> id in contents && W.Handed(writers[id], contents[id])
  }

  predicate Finished(writers: map<nat, W.State>, id: nat) {
    id in writers && writers[id].finSent
  }

  /** The frame carries what its stream handed out at its offset, is not empty, and a FIN stands at the very end. */
  ghost predicate FrameOk(f: StreamFrame, writers: map<nat, W.State>, contents: Contents) {
    && f.streamID in contents
    && Carries(f, contents[f.streamID])
    && (f.data != [] || f.fin)
    && (f.fin ==> Finished(writers, f.streamID) && f.End() == |contents[f.streamID]|)
  }

  ghost predicate StoreOk(store: Store, writers: map<nat, W.State>, contents: Contents) {
    forall i :: 0 <= i < |store| ==> FrameOk(store[i], writers, contents)
  }

  /** Contents only grow, and not at all once the FIN was sent. */
  ghost predicate Grows(
    writers: map<nat, W.State>, contents: Contents, writers': map<nat, W.State>, contents': Contents)
  {
    forall id :: id in contents ==>
      && id in contents' && contents[id] <= contents'[id]
      && (Finished(writers, id) ==> Finished(writers', id) && contents'[id] == contents[id])
  }

  lemma {:induction false} FrameStaysOk(
    f: StreamFrame, writers: map<nat, W.State>, contents: Contents, writers': map<nat, W.State>, contents': Contents)
    requires FrameOk(f, writers, contents) && Grows(writers, contents, writers', contents')
    ensures FrameOk(f, writers', contents')
  {
    var a, b := contents[f.streamID], contents'[f.streamID];
    assert b[f.offset..f.End()] == a[f.offset..f.End()];
  }

  lemma {:induction false} StoreStaysOk(
    store: Store, writers: map<nat, W.State>, contents: Contents, writers': map<nat, W.State>, contents': Contents)
    requires StoreOk(store, writers, contents) && Grows(writers, contents, writers', contents')
    ensures StoreOk(store, writers', contents')
  {
    forall i | 0 <= i < |store| ensures FrameOk(store[i], writers', contents') {
      FrameStaysOk(store[i], writers, contents, writers', contents');
    }
  }

  /** Both parts of a split frame carry their share, and the FIN stays at the end. */
  lemma {:induction false} SplitOk(f: StreamFrame, n: nat, writers: map<nat, W.State>, contents: Contents)
    requires 0 < n < |f.data| && FrameOk(f, writers, contents)
    ensures var (first, rest) := SplitOff(f, n); FrameOk(first, writers, contents) && FrameOk(rest, writers, contents)
  {
    TakeCarries(f, n, contents[f.streamID]);
    DropCarries(f, n, contents[f.streamID]);
  }

  lemma {:induction false} TakeWholeOk(
    store: Store, queue: seq<nat>, maxLen: nat, writers: map<nat, W.State>, contents: Contents)
    requires Refers(queue, |store|) && StoreOk(store, writers, contents)
    ensures StoreOk(TakeWhole(store, queue, 0, maxLen).store, writers, contents)
  {
    var t := TakeWhole(store, queue, 0, maxLen);
    forall i | 0 <= i < |t.store| ensures FrameOk(t.store[i], writers, contents) {
      TakeWholeKeeps(store, queue, 0, maxLen, i);
      assert FrameOk(store[i].(dataLenPresent := true), writers, contents);
    }
  }

  /** Taking and splitting frames in place keeps all of them in order, wherever they are held. */
  lemma {:induction false} RetransmissionsOk(
    store: Store, queue: seq<nat>, maxLen: nat, writers: map<nat, W.State>, contents: Contents)
    requires Refers(queue, |store|) && StoreOk(store, writers, contents)
    ensures StoreOk(PopRetransmissions(store, queue, maxLen).store, writers, contents)
  {
    TakeWholeOk(store, queue, maxLen, writers, contents);
    var t := TakeWhole(store, queue, 0, maxLen);
    if Splits(t, maxLen) {
      var x := t.queue[0];
      var (first, rest) := SplitOff(t.store[x], SplitAt(t, maxLen));
      SplitOk(t.store[x], SplitAt(t, maxLen), writers, contents);
      StoreOkCut(t.store, x, rest, first, writers, contents);
    }
  }

  lemma {:induction false} StoreOkCut(
    store: Store, x: nat, rest: StreamFrame, first: StreamFrame, writers: map<nat, W.State>, contents: Contents)
    requires StoreOk(store, writers, contents) && x < |store|
    requires FrameOk(rest, writers, contents) && FrameOk(first, writers, contents)
    ensures StoreOk(store[x := rest] + [first], writers, contents)
  {
  }

  /** What the streams have handed out once a frame with new data is made. */
  function Extended(contents: Contents, frame: Option<StreamFrame>): Contents {
    if frame.None? || frame.value.streamID !in contents then contents
    else contents[frame.value.streamID := contents[frame.value.streamID] + frame.value.data]
  }

  lemma {:induction false} AppendCarries(f: StreamFrame, content: seq<byte>)
    requires f.offset == |content|
    ensures Carries(f, content + f.data) && f.End() == |content + f.data|
  {
  }

  /** A new frame carries the next bytes of its stream, and its FIN comes after the last of them. */
  lemma {:induction false} VisitOk(
    st: State, id: nat, used: nat, maxBytes: nat, negotiated: FC.Negotiated, contents: Contents)
    requires SenderOk(st.writers, contents)
    ensures var v := VisitStream(st, id, used, maxBytes, negotiated);
      var contents' := Extended(contents, v.frame);
      && SenderOk(v.st.writers, contents')
      && Grows(st.writers, contents, v.st.writers, contents')
      && (v.frame.Some? ==> FrameOk(v.frame.value, v.st.writers, contents'))
  {
    var v := VisitStream(st, id, used, maxBytes, negotiated);
    if v.frame.Some? {
      var f, w := v.frame.value, v.st.writers[id];
      assert v.st.writers == st.writers[id := w] && Draws(st.writers[id], f, w, contents[id]);
      DrawnOk(st.writers, id, f, w, contents);
    }
  }

  /** A stream that has handed out the content goes on with the frame. */
  ghost predicate Draws(w: W.State, f: StreamFrame, w': W.State, content: seq<byte>) {
    && !w.finSent && f.offset == |content| && (f.data != [] || f.fin)
    && W.Handed(w', content + f.data) && (f.fin ==> w'.finSent)
  }

  lemma {:induction false} DrawnOk(
    writers: map<nat, W.State>, id: nat, f: StreamFrame, w: W.State, contents: Contents)
    requires SenderOk(writers, contents) && id in writers && f.streamID == id
    requires Draws(writers[id], f, w, contents[id])
    ensures var writers', contents' := writers[id := w], Extended(contents, Some(f));
      SenderOk(writers', contents') && Grows(writers, contents, writers', contents') && FrameOk(f, writers', contents')
  {
    AppendCarries(f, contents[id]);
  }

  function ExtendedAll(contents: Contents, fs: seq<StreamFrame>): Contents
    decreases |fs|
  {
    if fs == [] then contents else ExtendedAll(Extended(contents, Some(fs[0])), fs[1..])
  }

  lemma {:induction false} ContentsKeys(contents: Contents, fs: seq<StreamFrame>)
    ensures ExtendedAll(contents, fs).Keys == contents.Keys
    decreases |fs|
  {
    if fs != [] {
      ContentsKeys(Extended(contents, Some(fs[0])), fs[1..]);
    }
  }

  lemma {:induction false} GrowsTrans(
    w1: map<nat, W.State>, c1: Contents, w2: map<nat, W.State>, c2: Contents, w3: map<nat, W.State>, c3: Contents)
    requires Grows(w1, c1, w2, c2) && Grows(w2, c2, w3, c3)
    ensures Grows(w1, c1, w3, c3)
  {
  }

  /** From `writers` and `contents`, the new frames `fs` lead to `writers'`. */
  ghost predicate Makes(
    writers: map<nat, W.State>, contents: Contents, fs: seq<StreamFrame>, writers': map<nat, W.State>)
  {
    var contents' := ExtendedAll(contents, fs);
    && SenderOk(writers', contents')
    && Grows(writers, contents, writers', contents')
    && StoreOk(fs, writers', contents')
  }

  lemma {:induction false} MakesThen(
    w1: map<nat, W.State>, contents: Contents, frame: Option<StreamFrame>, w2: map<nat, W.State>,
    fs: seq<StreamFrame>, w3: map<nat, W.State>)
    requires var contents1 := Extended(contents, frame);
      && Grows(w1, contents, w2, contents1)
      && (frame.Some? ==> FrameOk(frame.value, w2, contents1))
      && Makes(w2, contents1, fs, w3)
    ensures Makes(w1, contents, Made(frame) + fs, w3)
  {
    var contents1 := Extended(contents, frame);
    var contents' := ExtendedAll(contents1, fs);
    GrowsTrans(w1, contents, w2, contents1, w3, contents');
    if frame.Some? {
      FrameStaysOk(frame.value, w2, contents1, w3, contents');
      assert ([frame.value] + fs)[1..] == fs;
    } else {
      assert [] + fs == fs;
    }
  }

  lemma {:induction false} MakesNothing(writers: map<nat, W.State>, contents: Contents)
    requires SenderOk(writers, contents)
    ensures Makes(writers, contents, [], writers)
  {
  }

  lemma {:induction false} WalkOk(
    st: State, order: seq<nat>, used: nat, maxBytes: nat, negotiated: FC.Negotiated, contents: Contents)
    requires SenderOk(st.writers, contents)
    ensures var w := WalkStreams(st, order, used, maxBytes, negotiated);
      Makes(st.writers, contents, w.frames, w.st.writers)
    decreases |order|
  {
    if order == [] {
      MakesNothing(st.writers, contents);
    } else {
      var v := VisitStream(st, order[0], used, maxBytes, negotiated);
      var contents1 := Extended(contents, v.frame);
      var used' := used + if v.frame.None? then 0 else Length(v.frame.value);
      var w := if v.goOn then WalkStreams(v.st, order[1..], used', maxBytes, negotiated) else Walk(v.st, [], used');
      assert Made(v.frame) + [] == Made(v.frame);
      assert Makes(st.writers, contents, Made(v.frame) + w.frames, w.st.writers) by {
        VisitOk(st, order[0], used, maxBytes, negotiated, contents);
        if v.goOn {
          WalkOk(v.st, order[1..], used', maxBytes, negotiated, contents1);
        } else {
          MakesNothing(v.st.writers, contents1);
        }
        MakesThen(st.writers, contents, v.frame, v.st.writers, w.frames, w.st.writers);
      }
    }
  }

  /** The contents once the packet's frames are made. */
  function ContentsAfter(
    st: State, order: seq<nat>, maxLen: nat, negotiated: FC.Negotiated, contents: Contents): Contents
    requires Refers(st.queue, |st.store|)
  {
    ExtendedAll(contents, NewFrames(st, order, maxLen, negotiated).frames)
  }

  lemma {:induction false} NewFramesOk(
    st: State, order: seq<nat>, maxLen: nat, negotiated: FC.Negotiated, contents: Contents)
    requires Refers(st.queue, |st.store|) && SenderOk(st.writers, contents)
    ensures var w := NewFrames(st, order, maxLen, negotiated); Makes(st.writers, contents, w.frames, w.st.writers)
  {
    var used := PopRetransmissions(st.store, st.queue, maxLen).used;
    var space := if used <= maxLen then maxLen - used else 0;
    WalkOk(AfterRetransmissions(st, maxLen), order, 0, space, negotiated, contents);
  }

  /**
    Every frame object, new or retransmitted, whole or split, carries what its stream handed out at its offset,
    and a FIN only at the end, before and after a packet is filled.
   */
  lemma {:induction false} PopOk(st: State, order: seq<nat>, maxLen: nat, negotiated: FC.Negotiated, contents: Contents)
    requires Refers(st.queue, |st.store|) && SenderOk(st.writers, contents) && StoreOk(st.store, st.writers, contents)
    ensures var st' := PopStreamFrames(st, order, maxLen, negotiated).0;
      var contents' := ContentsAfter(st, order, maxLen, negotiated, contents);
      && SenderOk(st'.writers, contents')
      && Grows(st.writers, contents, st'.writers, contents')
      && StoreOk(st'.store, st'.writers, contents')
  {
    var r, w := PopRetransmissions(st.store, st.queue, maxLen), NewFrames(st, order, maxLen, negotiated);
    var contents' := ContentsAfter(st, order, maxLen, negotiated, contents);
    assert StoreOk(r.store, st.writers, contents) by {
      RetransmissionsOk(st.store, st.queue, maxLen, st.writers, contents);
    }
    assert Makes(st.writers, contents, w.frames, w.st.writers) by {
      NewFramesOk(st, order, maxLen, negotiated, contents);
    }
    StoreStaysOk(r.store, st.writers, contents, w.st.writers, contents');
    NewFramesStored(st, order, maxLen, negotiated);
  }

  // ----- Packets that hold a frame only once -----

  /** If the queue holds every frame once, so does the packet, and so does what is left of the queue. */
  lemma {:induction false} PopDistinct(st: State, order: seq<nat>, maxLen: nat, negotiated: FC.Negotiated)
    requires Refers(st.queue, |st.store|) && NoDuplicates(st.queue)
    ensures var (st', ids) := PopStreamFrames(st, order, maxLen, negotiated);
      var t := TakeWhole(st.store, st.queue, 0, maxLen);
      && NoDuplicates(ids) && NoDuplicates(st'.queue)
      && !CutsTaken(t, maxLen) && !CutsQueued(t, maxLen) && !Overflows(t, maxLen)
  {
    var t, r := TakeWhole(st.store, st.queue, 0, maxLen), PopRetransmissions(st.store, st.queue, maxLen);
    NoDuplicatesAppend(t.ids, t.queue);
    assert t.queue != [] ==> t.queue[0] in t.queue;
    NewFramesStored(st, order, maxLen, negotiated);
    var made := NewFrames(st, order, maxLen, negotiated).frames;
    if Splits(t, maxLen) {
      NewNames(t.ids, |t.store|, 1);
      assert Range(|t.store|, 1) == [|t.store|];
    }
    NewNames(r.ids, |r.store|, |made|);
  }

  lemma {:induction false} NewNames(ids: seq<nat>, n: nat, k: nat)
    requires Refers(ids, n) && NoDuplicates(ids)
    ensures NoDuplicates(ids + Range(n, k))
  {
    RangeDistinct(n, k);
    forall x | x in ids ensures x !in Range(n, k) {
      RefersIn(ids, n, x);
      RangeAbove(n, k, x);
    }
    NoDuplicatesAppend(ids, Range(n, k));
  }

  lemma {:induction false} RangeDistinct(n: nat, k: nat)
    ensures NoDuplicates(Range(n, k))
    decreases k
  {
    if k > 0 {
      RangeDistinct(n + 1, k - 1);
      RangeAbove(n + 1, k - 1, n);
      assert Range(n, k)[1..] == Range(n + 1, k - 1);
    }
  }

  // ----- The loops of the framer -----

  /** What has been taken so far, continued by the rest of the queue, is everything taken whole. */
  ghost predicate TakesOn(all: Taken, store: Store, ids: seq<nat>, rest: seq<nat>, used: nat, maxLen: nat) {
    Refers(rest, |store|) &&
    var more := TakeWhole(store, rest, used, maxLen);
    all == more.(ids := ids + more.ids)
  }

  lemma {:induction false} TakeWholeUnfolds(store: Store, queue: seq<nat>, used: nat, maxLen: nat)
    requires Refers(queue, |store|) && queue != []
    ensures var store1 := Marked(store, queue[0]);
      var f := store1[queue[0]];
      var more := TakeWhole(store1, queue[1..], used + Length(f), maxLen);
      TakeWhole(store, queue, used, maxLen)
        == if Fits(f, used, maxLen) then more.(ids := [queue[0]] + more.ids) else Taken(store1, [], queue, used)
  {
  }

  lemma {:induction false} TakesOnStep(
    all: Taken, store: Store, ids: seq<nat>, rest: seq<nat>, used: nat, maxLen: nat, store1: Store, f: StreamFrame)
    requires TakesOn(all, store, ids, rest, used, maxLen) && rest != []
    requires store1 == Marked(store, rest[0]) && f == store1[rest[0]]
    ensures Fits(f, used, maxLen) ==>
      TakesOn(all, store1, ids + [rest[0]], rest[1..], used + Length(f), maxLen) && all.store[rest[0]] == f
    ensures !Fits(f, used, maxLen) ==> all == Taken(store1, ids, rest, used)
  {
    TakeWholeUnfolds(store, rest, used, maxLen);
    if Fits(f, used, maxLen) {
      var more := TakeWhole(store1, rest[1..], used + Length(f), maxLen);
      assert all == more.(ids := ids + ([rest[0]] + more.ids));
      assert more.store[rest[0]] == f by {
        TakeWholeKeeps(store1, rest[1..], used + Length(f), maxLen, rest[0]);
      }
      Associate(ids, [rest[0]], more.ids);
    } else {
      assert ids + [] == ids;
    }
  }

  /** Split off the first `n` bytes as a new frame, cutting the frame in place. */
  method MaybeSplitOffFrame(store: Store, id: nat, n: nat) returns (store': Store, split: Option<StreamFrame>)
    requires id < |store|
    ensures n >= |store[id].data| ==> split == None && store' == store
    ensures n < |store[id].data| ==>
      var (first, rest) := SplitOff(store[id], n);
      split == Some(first) && store' == store[id := rest] + [first]
  {
    var frame := store[id];
    if n >= |frame.data| {
      return store, None;
    }
    var first := StreamFrame(frame.streamID, false, frame.dataLenPresent, frame.offset, frame.data[..n]);
    split := Some(first);
    store' := store[id := frame.(data := frame.data[n..], offset := frame.offset + n)] + [first];
  }

  /** Where the loop over the queue stands. */
  ghost predicate Taking(
    all: Taken, store: Store, ids: seq<nat>, rest: seq<nat>, used: nat, maxLen: nat, resent: seq<StreamFrame>)
  {
    && |store| == |all.store| && Refers(ids, |store|)
    && TakesOn(all, store, ids, rest, used, maxLen)
    && resent == Frames(all.store, ids)
  }

  lemma {:induction false} TakingStep(
    all: Taken, store: Store, ids: seq<nat>, rest: seq<nat>, used: nat, maxLen: nat, resent: seq<StreamFrame>,
    marked: Store, f: StreamFrame, next: nat)
    requires Taking(all, store, ids, rest, used, maxLen, resent) && rest != []
    requires marked == Marked(store, rest[0]) && f == marked[rest[0]] && next == used + Length(f)
    ensures Fits(f, used, maxLen) ==> Taking(all, marked, ids + [rest[0]], rest[1..], next, maxLen, resent + [f])
    ensures !Fits(f, used, maxLen) ==> all == Taken(marked, ids, rest, used)
  {
    TakesOnStep(all, store, ids, rest, used, maxLen, marked, f);
    TakenOneMore(all.store, ids, rest[0]);
  }

  lemma {:induction false} TakingFirst(store: Store, queue: seq<nat>, maxLen: nat, all: Taken)
    requires Refers(queue, |store|) && all == TakeWhole(store, queue, 0, maxLen)
    ensures Taking(all, store, [], queue, 0, maxLen, [])
  {
    assert [] + all.ids == all.ids;
  }

  lemma {:induction false} TakingLast(
    all: Taken, store: Store, ids: seq<nat>, used: nat, maxLen: nat, resent: seq<StreamFrame>)
    requires Taking(all, store, ids, [], used, maxLen, resent)
    ensures all == Taken(store, ids, [], used) && resent == Frames(all.store, all.ids)
  {
    assert ids + [] == ids;
  }

  /** Mark the next frame, and see whether it fits. */
  method TakeNext(
    ghost all: Taken, store: Store, ids: seq<nat>, rest: seq<nat>, used: nat, maxLen: nat, resent: seq<StreamFrame>)
    returns (
      fits: bool, marked: Store, ids': seq<nat>, rest': seq<nat>, used': nat, resent': seq<StreamFrame>)
    requires Taking(all, store, ids, rest, used, maxLen, resent) && rest != []
    ensures fits ==> Taking(all, marked, ids', rest', used', maxLen, resent') && |rest'| < |rest|
    ensures !fits ==> all == Taken(marked, ids, rest, used)
  {
    var id := rest[0];
    marked := store[id := store[id].(dataLenPresent := true)];
    var frame := marked[id];
    ids', rest', used', resent' := ids + [id], rest[1..], used + Length(frame), resent + [frame];
    fits := used + Codec.MinLength(frame) < maxLen && used' <= maxLen;
    TakingStep(all, store, ids, rest, used, maxLen, resent, marked, frame, used');
  }

  /** Frames are marked and taken until one does not fit as a whole. */
  method TakeFrames(store: Store, queue: seq<nat>, maxLen: nat) returns (t: Taken, resent: seq<StreamFrame>)
    requires Refers(queue, |store|)
    ensures t == TakeWhole(store, queue, 0, maxLen) && resent == Frames(t.store, t.ids)
  {
    ghost var all := TakeWhole(store, queue, 0, maxLen);
    TakingFirst(store, queue, maxLen, all);
    t, resent := TakeOn(all, store, queue, maxLen);
  }

  method TakeOn(ghost all: Taken, store: Store, queue: seq<nat>, maxLen: nat)
    returns (t: Taken, resent: seq<StreamFrame>)
    requires Taking(all, store, [], queue, 0, maxLen, [])
    ensures t == all && Refers(t.ids, |t.store|) && resent == Frames(t.store, t.ids)
  {
    var now, rest := store, queue;
    var res: seq<nat> := [];
    var currentLen: nat := 0;
    resent := [];
    while rest != []
      invariant Taking(all, now, res, rest, currentLen, maxLen, resent)
      decreases |rest|
    {
      var fits, marked, ids', rest', used', resent' := TakeNext(all, now, res, rest, currentLen, maxLen, resent);
      if !fits {
        return Taken(marked, res, rest, currentLen), resent;
      }
      now, res, rest, currentLen, resent := marked, ids', rest', used', resent';
    }
    TakingLast(all, now, res, currentLen, maxLen, resent);
    t := Taken(now, res, [], currentLen);
  }

  lemma {:induction false} TakenOneMore(store: Store, ids: seq<nat>, id: nat)
    requires Refers(ids, |store|) && id < |store|
    ensures Refers(ids + [id], |store|) && Frames(store, ids + [id]) == Frames(store, ids) + [store[id]]
  {
    FramesCons(store, id, []);
    FramesAppend(store, ids, [id]);
  }

  /** Take frames, and the beginning of the one that does not fit as a whole. */
  method MaybePopFramesForRetransmission(store: Store, queue: seq<nat>, maxLen: nat)
    returns (r: Taken, resent: seq<StreamFrame>)
    requires Refers(queue, |store|)
    ensures r == PopRetransmissions(store, queue, maxLen)
    ensures resent == Resent(store, queue, maxLen)
  {
    r, resent := TakeFrames(store, queue, maxLen);
    assert resent + [] == resent;
    if r.queue == [] {
      return;
    }
    var id := r.queue[0];
    var currentLen := r.used + Codec.MinLength(r.store[id]);
    if currentLen >= maxLen {
      return;
    }
    var cut, split := MaybeSplitOffFrame(r.store, id, maxLen - currentLen);
    r, resent := Taken(cut, r.ids + [|r.store|], r.queue, maxLen), resent + [split.value];
  }

  /** Retransmitted bytes are counted frame by frame. */
  method AddBytesRetrans(fc: FC.State, resent: seq<StreamFrame>) returns (fc': FC.State)
    ensures fc' == CountRetransmitted(fc, resent)
  {
    fc' := fc;
    var rest := resent;
    while rest != []
      invariant CountRetransmitted(fc', rest) == CountRetransmitted(fc, resent)
      decreases |rest|
    {
      fc' := FC.Retransmit(fc', rest[0].streamID, |rest[0].data|).0;
      rest := rest[1..];
    }
  }

  /** What the source does for one stream when the round robin comes to it. */
  method OfferStream(st: State, id: nat, currentLen: nat, maxBytes: nat, negotiated: FC.Negotiated) returns (v: Visit)
    ensures v == VisitStream(st, id, currentLen, maxBytes, negotiated)
  {
    if id !in st.writers || id == 1 {
      return Visit(st, None, true);
    }
    var w := st.writers[id];
    var offset := w.offset;
    var frameHeaderBytes := Codec.MinLength(StreamFrame(id, false, true, offset, []));
    if currentLen + frameHeaderBytes > maxBytes {
      return Visit(st, None, false);
    }
    var maxLen := maxBytes - currentLen - frameHeaderBytes;
    var sendWindowSize := 0;
    var lenStreamData := W.LenOfDataForWriting(w);
    if lenStreamData != 0 {
      sendWindowSize := FC.SendWindow(st.fc, id, negotiated);
      maxLen := Min(maxLen, sendWindowSize);
    }
    if maxLen == 0 {
      return Visit(st, None, true);
    }
    var data: Option<seq<byte>> := None;
    if lenStreamData != 0 {
      var taken := W.GetDataForWriting(w, maxLen);
      w, data := taken.0, taken.1;
    }
    var fin := W.ShouldSendFin(w);
    if data.None? && !fin {
      return Visit(st, None, true);
    }
    if fin {
      w := W.SentFin(w);
    }
    var bytes := if data.None? then [] else data.value;
    var frame := StreamFrame(id, fin, true, offset, bytes);
    var fc := FC.Send(st.fc, id, |bytes|).0;
    var blocked := st.blocked;
    if FlowController.SendWindowSize(fc.conn, negotiated.conn) == 0 {
      blocked := blocked + [0];
    } else if !fin && sendWindowSize == |bytes| {
      blocked := blocked + [id];
    }
    v := Visit(
      st.(writers := st.writers[id := w], fc := fc, store := st.store + [frame], blocked := blocked),
      Some(frame), currentLen + frameHeaderBytes + |bytes| != maxBytes);
  }

  /** What has been made so far, continued by the rest of the walk, is the whole walk. */
  ghost predicate WalksOn(
    all: Walk, st: State, frames: seq<StreamFrame>, rest: seq<nat>, used: nat, maxBytes: nat, negotiated: FC.Negotiated)
  {
    var more := WalkStreams(st, rest, used, maxBytes, negotiated);
    all == more.(frames := frames + more.frames)
  }

  lemma {:induction false} WalksOnStep(
    all: Walk, st: State, frames: seq<StreamFrame>, rest: seq<nat>, used: nat, maxBytes: nat, negotiated: FC.Negotiated)
    requires WalksOn(all, st, frames, rest, used, maxBytes, negotiated) && rest != []
    ensures var v := VisitStream(st, rest[0], used, maxBytes, negotiated);
      var used' := used + if v.frame.None? then 0 else Length(v.frame.value);
      if v.goOn then WalksOn(all, v.st, frames + Made(v.frame), rest[1..], used', maxBytes, negotiated)
      else all == Walk(v.st, frames + Made(v.frame), used')
  {
    var v := VisitStream(st, rest[0], used, maxBytes, negotiated);
    var used' := used + if v.frame.None? then 0 else Length(v.frame.value);
    if v.goOn {
      Associate(frames, Made(v.frame), WalkStreams(v.st, rest[1..], used', maxBytes, negotiated).frames);
    }
  }

  method MaybePopNormalFrames(st: State, order: seq<nat>, maxBytes: nat, negotiated: FC.Negotiated) returns (w: Walk)
    ensures w == WalkStreams(st, order, 0, maxBytes, negotiated)
  {
    ghost var all := WalkStreams(st, order, 0, maxBytes, negotiated);
    assert [] + all.frames == all.frames;
    w := WalkOn(all, st, order, maxBytes, negotiated);
  }

  method WalkOn(ghost all: Walk, st: State, order: seq<nat>, maxBytes: nat, negotiated: FC.Negotiated)
    returns (w: Walk)
    requires WalksOn(all, st, [], order, 0, maxBytes, negotiated)
    ensures w == all
  {
    var now, rest := st, order;
    var res: seq<StreamFrame> := [];
    var currentLen: nat := 0;
    while rest != []
      invariant WalksOn(all, now, res, rest, currentLen, maxBytes, negotiated)
      decreases |rest|
    {
      WalksOnStep(all, now, res, rest, currentLen, maxBytes, negotiated);
      var v := OfferStream(now, rest[0], currentLen, maxBytes, negotiated);
      if v.frame.Some? {
        currentLen := currentLen + Length(v.frame.value);
      }
      now, res, rest := v.st, res + Made(v.frame), rest[1..];
      if !v.goOn {
        return Walk(now, res, currentLen);
      }
    }
    assert res + [] == res;
    w := Walk(now, res, currentLen);
  }

  method AfterPopping(before: State, maxLen: nat) returns (r: Taken, st: State)
    requires Refers(before.queue, |before.store|)
    ensures r == PopRetransmissions(before.store, before.queue, maxLen) && r.used <= maxLen
    ensures st == AfterRetransmissions(before, maxLen)
  {
    RetransmissionsFit(before.store, before.queue, maxLen);
    var resent;
    r, resent := MaybePopFramesForRetransmission(before.store, before.queue, maxLen);
    var counted := AddBytesRetrans(before.fc, resent);
    st := before.(fc := counted, store := r.store, queue := r.queue);
  }

  class Framer {
    var writers: map<nat, W.State>
    var fc: FC.State
    var store: Store
    var retransmissionQueue: seq<nat>
    var blockedFrameQueue: seq<nat>

    ghost function Contents(): State
      reads this
    {
      State(writers, fc, store, retransmissionQueue, blockedFrameQueue)
    }

    constructor (writers: map<nat, W.State>, fc: FC.State)
      ensures Contents() == State(writers, fc, [], [], [])
    {
      this.writers, this.fc := writers, fc;
      store, retransmissionQueue, blockedFrameQueue := [], [], [];
    }

    method AddFrameForRetransmission(id: nat)
      modifies this
      ensures Contents() == old(Contents()).(queue := old(retransmissionQueue) + [id])
    {
      retransmissionQueue := retransmissionQueue + [id];
    }

    method PopFrames(order: seq<nat>, maxLen: nat, negotiated: FC.Negotiated) returns (ids: seq<nat>)
      requires Refers(retransmissionQueue, |store|)
      modifies this
      ensures (Contents(), ids) == PopStreamFrames(old(Contents()), order, maxLen, negotiated)
    {
      var before := State(writers, fc, store, retransmissionQueue, blockedFrameQueue);
      var r, st := AfterPopping(before, maxLen);
      var w := MaybePopNormalFrames(st, order, maxLen - r.used, negotiated);
      writers, fc, store := w.st.writers, w.st.fc, w.st.store;
      retransmissionQueue, blockedFrameQueue := w.st.queue, w.st.blocked;
      ids := r.ids + Range(|r.store|, |w.frames|);
    }

    /** The packer clears the length field of the last frame. */
    method ClearLength(ids: seq<nat>)
      requires Refers(ids, |store|)
      modifies this`store
      ensures ids == [] ==> store == old(store)
      ensures ids != [] ==> ids[|ids| - 1] < |old(store)|
      ensures ids != [] ==> store == old(store)[ids[|ids| - 1] := old(store)[ids[|ids| - 1]].(dataLenPresent := false)]
    {
      if ids != [] {
        var last := ids[|ids| - 1];
        RefersIn(ids, |store|, last);
        store := store[last := store[last].(dataLenPresent := false)];
      }
    }

    method PopBlockedFrame() returns (r: Option<nat>)
      modifies this
      ensures old(blockedFrameQueue) == [] ==> r == None && Contents() == old(Contents())
      ensures old(blockedFrameQueue) != [] ==>
        r == Some(old(blockedFrameQueue)[0]) && Contents() == old(Contents()).(blocked := old(blockedFrameQueue)[1..])
    {
      if blockedFrameQueue == [] {
        return None;
      }
      r := Some(blockedFrameQueue[0]);
      blockedFrameQueue := blockedFrameQueue[1..];
    }
  }
}
