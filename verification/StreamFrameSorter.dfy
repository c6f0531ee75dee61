/**
  The receive-side reassembly buffer of a stream (quic-go/stream_frame_sorter.go).

  `gaps` lists the byte ranges not received yet and `queued` holds the received frames by offset.
  Queued frames may overlap and may be stale, so the invariant does not say that they are disjoint:
  it says that they form a chain from the read position to the first gap and from the end of each
  gap to the start of the next one.
 */
module StreamFrameSorter {
  import opened Basics
  import opened StreamFrames

  const MAX_GAPS: nat := 2500

  datatype State = State(
    gaps: seq<ByteInterval>,
    queued: map<nat, StreamFrame>,
    readPosition: nat
  )

  datatype PushResult =
    | Accepted
    | Duplicate
    | Empty
    | TooManyGaps
    | NoGapFound
    | NoEndGapFound

  // ----- Specification state -----

  /** The gap list says that byte `b` has not been received. */
  ghost predicate Missing(gaps: seq<ByteInterval>, b: nat) {
    gaps != [] && (gaps[0].start <= b < gaps[0].end || Missing(gaps[1..], b))
  }

  /** Gaps are nonempty, sorted, disjoint and non-adjacent, start after `lo`, and reach the largest offset. */
  ghost predicate GapsFrom(lo: int, gaps: seq<ByteInterval>)
    decreases |gaps|
  {
    if gaps == [] then lo == MAX_U64
    else lo < gaps[0].start < gaps[0].end && GapsFrom(gaps[0].end, gaps[1..])
  }

  /** Nonempty queued frames lead step by step from offset `a` to offset `b`. */
  ghost predicate Linked(queued: map<nat, StreamFrame>, a: nat, b: nat)
    decreases b - a
  {
    a == b ||
    (a < b && a in queued && 0 < |queued[a].data| && Linked(queued, a + |queued[a].data|, b))
  }

  /** Nonempty queued frames lead from `p` to the first gap, and from each gap to the next. */
  ghost predicate Chained(queued: map<nat, StreamFrame>, p: nat, gaps: seq<ByteInterval>)
    decreases |gaps|
  {
    gaps == [] || (Linked(queued, p, gaps[0].start) && Chained(queued, gaps[0].end, gaps[1..]))
  }

  /** Every byte of every queued frame, reachable or stale, has been received. */
  ghost predicate QueuedReceived(gaps: seq<ByteInterval>, queued: map<nat, StreamFrame>) {
    forall o, b :: o in queued && o <= b < o + |queued[o].data| ==> !Missing(gaps, b)
  }

  ghost predicate KeysOk(queued: map<nat, StreamFrame>) {
    forall o :: o in queued ==> queued[o].offset == o
  }

  ghost predicate Valid(st: State) {
    && GapsFrom(-1, st.gaps)
    && KeysOk(st.queued)
    && QueuedReceived(st.gaps, st.queued)
    && Chained(st.queued, st.readPosition, st.gaps)
  }

  // ----- Operations on values -----

  function Init(): (st: State)
    ensures Valid(st)
    ensures forall b: nat :: b < MAX_U64 <==> Missing(st.gaps, b)
  {
    State([ByteInterval(0, MAX_U64)], map[], 0)
  }

  /** The interval from `a` to `b` as a list: no list entry if it is empty. */
  function Piece(a: nat, b: nat): seq<ByteInterval> {
    if a < b then [ByteInterval(a, b)] else []
  }

  /** The gap list without the bytes from `s` to `e`. */
  function Fill(gaps: seq<ByteInterval>, s: nat, e: nat): seq<ByteInterval> {
    if gaps == [] then []
    else
      Piece(gaps[0].start, Min(s, gaps[0].end)) + Piece(Max(e, gaps[0].start), gaps[0].end)
      + Fill(gaps[1..], s, e)
  }

  /** The first missing byte at or after `s`. */
  function FirstFrom(gaps: seq<ByteInterval>, s: nat): nat {
    if gaps == [] then MAX_U64
    else if s < gaps[0].end then Max(s, gaps[0].start)
    else FirstFrom(gaps[1..], s)
  }

  /** One past the last missing byte before `e`. */
  function LastBefore(gaps: seq<ByteInterval>, e: nat): nat {
    if gaps == [] || e <= gaps[0].start then 0
    else Max(Min(e, gaps[0].end), LastBefore(gaps[1..], e))
  }

  /** Where the walk over the gaps stops for a frame at `s`: also at a gap that ends just there. */
  function Begin(gaps: seq<ByteInterval>, s: nat): nat {
    if gaps == [] then MAX_U64
    else if s <= gaps[0].end then Max(s, gaps[0].start)
    else Begin(gaps[1..], s)
  }

  /** The ends of the gaps that end from `s` on and before `e`. */
  function EndsBetween(gaps: seq<ByteInterval>, s: nat, e: nat): set<nat> {
    if gaps == [] then {}
    else (if s <= gaps[0].end < e then {gaps[0].end} else {}) + EndsBetween(gaps[1..], s, e)
  }

  /** Part of frame `g` from offset `s` to offset `e`. */
  function Cut(g: StreamFrame, s: nat, e: nat): (r: StreamFrame)
    requires g.offset <= s <= e <= g.End()
    ensures r.offset == s && r.End() == e
  {
    g.Drop(s - g.offset).Take(e - s)
  }

  /**
    Store a nonempty frame: trim it to its first and last missing byte, close the gaps it fills, and
    drop the first queued frame of every run it covers. A frame that starts where a gap ends is not trimmed
    at its front; this cannot happen while the queued frames form a chain.
   */
  function Store(st: State, g: StreamFrame): (State, PushResult)
    requires GapsFrom(-1, st.gaps) && g.data != []
  {
    var s := Begin(st.gaps, g.offset);
    if g.End() <= s then (st, Duplicate)
    else if g.End() >= MAX_U64 then (Abandon(st, s), NoEndGapFound)
    else
      var e := LastBefore(st.gaps, g.End());
      BeginBounds(-1, st.gaps, g.offset, g.End());
      var gaps, queued := Fill(st.gaps, g.offset, g.End()), st.queued - EndsBetween(st.gaps, s, e);
      if |gaps| > MAX_GAPS then (State(gaps, queued, st.readPosition), TooManyGaps)
      else (State(gaps, queued[s := Cut(g, s, e)], st.readPosition), Accepted)
  }

  /** What is left when a frame reaches the largest offset: the connection is about to be closed. */
  function Abandon(st: State, s: nat): State {
    st.(
      gaps := KeepOuter(st.gaps, s),
      queued := st.queued - EndsBetween(st.gaps, s, MAX_U64))
  }

  /** The gap list without the gaps that lie strictly between the first one not ending before `s` and the last one. */
  function KeepOuter(gaps: seq<ByteInterval>, s: nat): seq<ByteInterval> {
    if |gaps| <= 1 then gaps
    else if s <= gaps[0].end then [gaps[0], gaps[|gaps| - 1]]
    else [gaps[0]] + KeepOuter(gaps[1..], s)
  }

  /** A frame that starts where a shorter queued frame starts loses the bytes the queued one has. */
  function WithoutQueued(queued: map<nat, StreamFrame>, f: StreamFrame): (r: StreamFrame)
    requires f.offset in queued ==> |queued[f.offset].data| < |f.data|
  {
    if f.offset in queued then f.Drop(|queued[f.offset].data|) else f
  }

  /** What `Push` does. */
  function Pushed(st: State, f: StreamFrame): (r: (State, PushResult))
    requires GapsFrom(-1, st.gaps)
    requires f.End() <= MAX_U64
  {
    if f.data == [] then
      if f.fin then (st.(queued := st.queued[f.offset := f]), Accepted) else (st, Empty)
    else if f.offset in st.queued && |f.data| <= |st.queued[f.offset].data| then
      (st, Duplicate)
    else
      Store(st, WithoutQueued(st.queued, f))
  }

  /** The frame at the read position, and the sorter without it. */
  function Popped(st: State): (r: (State, Option<StreamFrame>)) {
    if st.readPosition in st.queued then
      var f := st.queued[st.readPosition];
      (State(st.gaps, st.queued - {f.offset}, st.readPosition + |f.data|), Some(f))
    else (st, None)
  }

  // ----- Gap lists -----

  lemma {:induction false} MissingAbove(lo: int, gaps: seq<ByteInterval>, b: nat)
    requires GapsFrom(lo, gaps) && Missing(gaps, b)
    ensures lo < b < MAX_U64
    decreases |gaps|
  {
    GapsBounded(lo, gaps);
    if !(gaps[0].start <= b < gaps[0].end) {
      MissingAbove(gaps[0].end, gaps[1..], b);
    } else {
      GapsBounded(gaps[0].end, gaps[1..]);
    }
  }

  lemma {:induction false} GapsBounded(lo: int, gaps: seq<ByteInterval>)
    requires GapsFrom(lo, gaps)
    ensures lo <= MAX_U64
    decreases |gaps|
  {
    if gaps != [] {
      GapsBounded(gaps[0].end, gaps[1..]);
    }
  }

  lemma {:induction false} MissingConcat(a: seq<ByteInterval>, c: seq<ByteInterval>, b: nat)
    ensures Missing(a + c, b) <==> Missing(a, b) || Missing(c, b)
  {
    if a == [] {
      assert a + c == c;
    } else {
      assert (a + c)[1..] == a[1..] + c;
      MissingConcat(a[1..], c, b);
    }
  }

  /** `Fill` removes exactly the bytes it is asked to remove. */
  lemma {:induction false} FillMissing(gaps: seq<ByteInterval>, s: nat, e: nat, b: nat)
    requires s <= e
    ensures Missing(Fill(gaps, s, e), b) <==> Missing(gaps, b) && !(s <= b < e)
  {
    if gaps != [] {
      var left := Piece(gaps[0].start, Min(s, gaps[0].end));
      var right := Piece(Max(e, gaps[0].start), gaps[0].end);
      MissingConcat(left + right, Fill(gaps[1..], s, e), b);
      MissingConcat(left, right, b);
      FillMissing(gaps[1..], s, e, b);
    }
  }

  lemma {:induction false} PrependPiece(lo: int, a: nat, b: nat, hi: int, rest: seq<ByteInterval>)
    requires GapsFrom(hi, rest) && lo <= hi
    requires a < b ==> lo < a && b <= hi
    requires rest != [] || (a < b && b == hi)
    ensures GapsFrom(lo, Piece(a, b) + rest)
  {
    if a < b {
      assert (Piece(a, b) + rest)[1..] == rest;
    } else {
      assert Piece(a, b) + rest == rest;
    }
  }

  lemma {:induction false} FillGaps(lo: int, gaps: seq<ByteInterval>, s: nat, e: nat)
    requires GapsFrom(lo, gaps) && s < e < MAX_U64
    ensures GapsFrom(lo, Fill(gaps, s, e))
    ensures gaps != [] ==> Fill(gaps, s, e) != []
    decreases |gaps|
  {
    if gaps != [] {
      var g, rest := gaps[0], Fill(gaps[1..], s, e);
      FillGaps(g.end, gaps[1..], s, e);
      var left, right := Piece(g.start, Min(s, g.end)), Piece(Max(e, g.start), g.end);
      var mid := if left == [] then lo else left[0].end;
      PrependPiece(mid, Max(e, g.start), g.end, g.end, rest);
      PrependPiece(lo, g.start, Min(s, g.end), mid, right + rest);
      assert left + right + rest == left + (right + rest);
    }
  }

  /** The bounds to which a frame with a missing byte is trimmed. */
  lemma {:induction false} TrimBounds(lo: int, gaps: seq<ByteInterval>, s: nat, e: nat)
    requires GapsFrom(lo, gaps) && FirstFrom(gaps, s) < e < MAX_U64
    ensures s <= FirstFrom(gaps, s) < LastBefore(gaps, e) <= e
    decreases |gaps|
  {
    if gaps != [] {
      LastBounded(gaps[1..], e);
      if gaps[0].end <= s {
        TrimBounds(gaps[0].end, gaps[1..], s, e);
        FirstAbove(gaps[0].end, gaps[1..], s);
      }
    }
  }

  /** The walk stops at the first missing byte, or at the frame's own start if a gap ends there. */
  lemma {:induction false} BeginIsFirst(lo: int, gaps: seq<ByteInterval>, s: nat)
    requires GapsFrom(lo, gaps)
    ensures NoEndAt(gaps, s) ==> Begin(gaps, s) == FirstFrom(gaps, s)
    ensures Begin(gaps, s) == FirstFrom(gaps, s) || Begin(gaps, s) == s
    ensures s <= Begin(gaps, s) <= FirstFrom(gaps, s) || s >= MAX_U64
    decreases |gaps|
  {
    GapsBounded(lo, gaps);
    if gaps != [] {
      GapsBounded(gaps[0].end, gaps[1..]);
      BeginIsFirst(gaps[0].end, gaps[1..], s);
      FirstAbove(gaps[0].end, gaps[1..], s);
    }
  }

  lemma {:induction false} BeginBounds(lo: int, gaps: seq<ByteInterval>, s: nat, e: nat)
    requires GapsFrom(lo, gaps) && s < e && Begin(gaps, s) < e < MAX_U64
    ensures s <= Begin(gaps, s) <= LastBefore(gaps, e) <= e
    decreases |gaps|
  {
    if gaps != [] {
      LastBounded(gaps[1..], e);
      if gaps[0].end < s {
        BeginBounds(gaps[0].end, gaps[1..], s, e);
      }
    }
  }

  lemma {:induction false} LastBounded(gaps: seq<ByteInterval>, e: nat)
    ensures LastBefore(gaps, e) <= e
  {
    if gaps != [] {
      LastBounded(gaps[1..], e);
    }
  }

  lemma {:induction false} FirstAbove(lo: int, gaps: seq<ByteInterval>, s: nat)
    requires GapsFrom(lo, gaps)
    ensures lo <= FirstFrom(gaps, s)
    decreases |gaps|
  {
    if gaps != [] && gaps[0].end <= s {
      FirstAbove(gaps[0].end, gaps[1..], s);
    }
  }

  // ----- Chains -----

  lemma {:induction false} LinkedBounds(q: map<nat, StreamFrame>, a: nat, b: nat)
    requires Linked(q, a, b)
    ensures a <= b
  {
  }

  /** A chain depends only on the frames queued inside it. */
  lemma {:induction false} LinkedFrame(q: map<nat, StreamFrame>, q': map<nat, StreamFrame>, a: nat, b: nat)
    requires Linked(q, a, b)
    requires forall o :: a <= o < b && o in q ==> o in q' && q'[o] == q[o]
    ensures Linked(q', a, b)
    decreases b - a
  {
    if a < b {
      LinkedFrame(q, q', a + |q[a].data|, b);
    }
  }

  lemma {:induction false} LinkedJoin(q: map<nat, StreamFrame>, a: nat, b: nat, c: nat)
    requires Linked(q, a, b) && Linked(q, b, c)
    ensures Linked(q, a, c)
    decreases b - a
  {
    LinkedBounds(q, b, c);
    if a < b {
      LinkedJoin(q, a + |q[a].data|, b, c);
    }
  }

  lemma {:induction false} ChainedFrame(
    q: map<nat, StreamFrame>, q': map<nat, StreamFrame>, p: nat, gaps: seq<ByteInterval>)
    requires Chained(q, p, gaps) && GapsFrom(p, gaps)
    requires forall o :: p <= o && o in q ==> o in q' && q'[o] == q[o]
    ensures Chained(q', p, gaps)
    decreases |gaps|
  {
    if gaps != [] {
      LinkedFrame(q, q', p, gaps[0].start);
      ChainedFrame(q, q', gaps[0].end, gaps[1..]);
    }
  }

  lemma {:induction false} ChainedPrepend(q: map<nat, StreamFrame>, p: nat, a: nat, b: nat, rest: seq<ByteInterval>)
    requires a < b ==> Linked(q, p, a) && Chained(q, b, rest)
    requires a >= b ==> Chained(q, p, rest)
    ensures Chained(q, p, Piece(a, b) + rest)
  {
    if a < b {
      assert (Piece(a, b) + rest)[1..] == rest;
    } else {
      assert Piece(a, b) + rest == rest;
    }
  }

  /** Bytes below the gap list need no filling. */
  lemma {:induction false} FillBelow(lo: int, gaps: seq<ByteInterval>, s: nat, e: nat)
    requires GapsFrom(lo, gaps) && s <= e && (gaps != [] ==> e <= gaps[0].start)
    ensures Fill(gaps, s, e) == gaps
    decreases |gaps|
  {
    if gaps != [] {
      FillBelow(gaps[0].end, gaps[1..], s, e);
    }
  }

  /** The gaps from the first one that the stored frame fills: the frame ends the chain at `t`. */
  lemma {:induction false} FillChainedTail(
    q: map<nat, StreamFrame>, q': map<nat, StreamFrame>, p': nat, lo: int, gaps: seq<ByteInterval>, s: nat, e: nat)
    requires GapsFrom(lo, gaps) && gaps != [] && s <= gaps[0].start < e && s < e
    requires Chained(q, gaps[0].end, gaps[1..])
    requires Linked(q', p', LastBefore(gaps, e))
    requires forall o :: LastBefore(gaps, e) <= o && o in q ==> o in q' && q'[o] == q[o]
    ensures Chained(q', p', Fill(gaps, s, e))
    decreases |gaps|
  {
    var g, rest := gaps[0], gaps[1..];
    assert Fill(gaps, s, e) == Piece(Max(e, g.start), g.end) + Fill(rest, s, e);
    if rest != [] && rest[0].start < e {
      assert LastBefore(gaps, e) == LastBefore(rest, e) by { LastAbove(g.end, rest, e); }
      FillChainedTail(q, q', p', g.end, rest, s, e);
      assert Fill(gaps, s, e) == Fill(rest, s, e);
    } else {
      FillBelow(g.end, rest, s, e);
      assert LastBefore(gaps, e) == Min(e, g.end);
      if rest != [] {
        ChainedFrame(q, q', g.end, rest);
        if g.end <= e {
          LinkedJoin(q', p', g.end, rest[0].start);
        }
      }
      ChainedPrepend(q', p', Max(e, g.start), g.end, rest);
    }
  }

  lemma {:induction false} LastAbove(lo: int, gaps: seq<ByteInterval>, e: nat)
    requires GapsFrom(lo, gaps) && gaps != [] && gaps[0].start < e
    ensures gaps[0].start < LastBefore(gaps, e)
  {
  }

  /** The queue after a frame from `a` to `b` has replaced everything queued between those offsets. */
  ghost predicate Replaced(q: map<nat, StreamFrame>, q': map<nat, StreamFrame>, a: nat, b: nat) {
    && (forall o :: o in q && (o < a || b <= o) ==> o in q' && q'[o] == q[o])
    && a < b && a in q' && a + |q'[a].data| == b
  }

  lemma {:induction false} FillSplitsFirst(gaps: seq<ByteInterval>, s: nat, e: nat)
    requires gaps != [] && gaps[0].start < s < gaps[0].end && s < e
    ensures var gaps' := [ByteInterval(s, gaps[0].end)] + gaps[1..];
      && gaps'[1..] == gaps[1..]
      && Fill(gaps, s, e) == Piece(gaps[0].start, s) + Fill(gaps', s, e)
      && LastBefore(gaps', e) == LastBefore(gaps, e)
  {
    var first, rest := gaps[0], Fill(gaps[1..], s, e);
    var gaps' := [ByteInterval(s, first.end)] + gaps[1..];
    assert gaps'[1..] == gaps[1..];
    assert Fill(gaps', s, e) == [] + Piece(e, first.end) + rest;
    assert [] + Piece(e, first.end) + rest == Piece(e, first.end) + rest;
    assert Fill(gaps, s, e) == Piece(first.start, s) + Piece(e, first.end) + rest;
    Associate(Piece(first.start, s), Piece(e, first.end), rest);
  }

  lemma {:induction false} FillChainedHead(
    q: map<nat, StreamFrame>, q': map<nat, StreamFrame>, p: nat, lo: int, gaps: seq<ByteInterval>, s: nat, e: nat)
    requires GapsFrom(lo, gaps) && Chained(q, p, gaps) && gaps != [] && s < gaps[0].end
    requires FirstFrom(gaps, s) < e < MAX_U64 && s < e
    requires Replaced(q, q', FirstFrom(gaps, s), LastBefore(gaps, e))
    ensures Chained(q', p, Fill(gaps, s, e))
  {
    var g, rest := gaps[0], gaps[1..];
    var a := FirstFrom(gaps, s);
    LinkedFrame(q, q', p, g.start);
    assert Linked(q', a, LastBefore(gaps, e));
    if g.start < s {
      var gaps' := [ByteInterval(s, g.end)] + rest;
      FillSplitsFirst(gaps, s, e);
      FillChainedTail(q, q', s, g.start, gaps', s, e);
      ChainedPrepend(q', p, g.start, s, Fill(gaps', s, e));
    } else {
      LinkedJoin(q', p, g.start, LastBefore(gaps, e));
      FillChainedTail(q, q', p, lo, gaps, s, e);
    }
  }

  lemma {:induction false} FillChained(
    q: map<nat, StreamFrame>, q': map<nat, StreamFrame>, p: nat, lo: int, gaps: seq<ByteInterval>, s: nat, e: nat)
    requires GapsFrom(lo, gaps) && Chained(q, p, gaps)
    requires FirstFrom(gaps, s) < e < MAX_U64 && s < e
    requires Replaced(q, q', FirstFrom(gaps, s), LastBefore(gaps, e))
    ensures Chained(q', p, Fill(gaps, s, e))
    decreases |gaps|
  {
    if gaps != [] {
      var g, rest := gaps[0], gaps[1..];
      if g.end <= s {
        TrimBounds(g.end, rest, s, e);
        LinkedFrame(q, q', p, g.start);
        FillChained(q, q', g.end, g.end, rest, s, e);
        assert Fill(gaps, s, e) == Piece(g.start, g.end) + Fill(rest, s, e);
        ChainedPrepend(q', p, g.start, g.end, Fill(rest, s, e));
      } else {
        FillChainedHead(q, q', p, lo, gaps, s, e);
      }
    }
  }

  lemma {:induction false} EndsBetweenBounds(gaps: seq<ByteInterval>, s: nat, e: nat, o: nat)
    requires o in EndsBetween(gaps, s, e)
    ensures s <= o < e
  {
    if o !in (if s <= gaps[0].end < e then {gaps[0].end} else {}) {
      EndsBetweenBounds(gaps[1..], s, e, o);
    }
  }

  /** No gap ends at offset `s`. */
  ghost predicate NoEndAt(gaps: seq<ByteInterval>, s: nat) {
    gaps == [] || (gaps[0].end != s && NoEndAt(gaps[1..], s))
  }

  /** A frame never starts where a gap ends: the frame queued there would have cut it. */
  lemma {:induction false} StartIsNoGapEnd(q: map<nat, StreamFrame>, p: nat, lo: int, gaps: seq<ByteInterval>, s: nat)
    requires GapsFrom(lo, gaps) && Chained(q, p, gaps) && s < MAX_U64
    requires (s in q ==> q[s].data == []) || (0 < s && !Missing(gaps, s - 1))
    ensures NoEndAt(gaps, s)
    decreases |gaps|
  {
    if gaps != [] {
      StartIsNoGapEnd(q, gaps[0].end, gaps[0].end, gaps[1..], s);
    }
  }

  /** While the chain is intact, what is stored of a frame begins at its first missing byte. */
  lemma {:induction false} StoreBegins(st: State, f: StreamFrame)
    requires Valid(st) && f.End() <= MAX_U64 && f.data != []
    requires f.offset in st.queued ==> |st.queued[f.offset].data| < |f.data|
    ensures var s := WithoutQueued(st.queued, f).offset;
      NoEndAt(st.gaps, s) && Begin(st.gaps, s) == FirstFrom(st.gaps, s)
  {
    var s := WithoutQueued(st.queued, f).offset;
    StartIsNoGapEnd(st.queued, st.readPosition, -1, st.gaps, s);
    BeginIsFirst(-1, st.gaps, s);
  }

  // ----- What Push promises -----

  ghost predicate Covers(f: StreamFrame, b: nat) {
    f.offset <= b < f.End()
  }

  lemma {:induction false} StoreQueue(st: State, g: StreamFrame)
    requires GapsFrom(-1, st.gaps) && g.data != [] && Begin(st.gaps, g.offset) == FirstFrom(st.gaps, g.offset)
    requires FirstFrom(st.gaps, g.offset) < g.End() < MAX_U64 && Store(st, g).1 == Accepted
    ensures var a, b := FirstFrom(st.gaps, g.offset), LastBefore(st.gaps, g.End());
      var q := Store(st, g).0.queued;
      && g.offset <= a < b <= g.End()
      && Replaced(st.queued, q, a, b)
      && q[a] == Cut(g, a, b)
      && forall o :: o in q && o != a ==> o in st.queued && q[o] == st.queued[o]
  {
    TrimBounds(-1, st.gaps, g.offset, g.End());
    var a, b := FirstFrom(st.gaps, g.offset), LastBefore(st.gaps, g.End());
    forall o | o in st.queued && (o < a || b <= o) ensures o !in EndsBetween(st.gaps, a, b) {
      if o in EndsBetween(st.gaps, a, b) {
        EndsBetweenBounds(st.gaps, a, b, o);
      }
    }
  }

  lemma {:induction false} FirstFromIsFirst(lo: int, gaps: seq<ByteInterval>, s: nat, b: nat)
    requires GapsFrom(lo, gaps)
    ensures Missing(gaps, b) && s <= b ==> FirstFrom(gaps, s) <= b
    ensures FirstFrom(gaps, s) < MAX_U64 ==> Missing(gaps, FirstFrom(gaps, s))
    decreases |gaps|
  {
    if gaps != [] {
      FirstFromIsFirst(gaps[0].end, gaps[1..], s, b);
      if Missing(gaps[1..], b) {
        MissingAbove(gaps[0].end, gaps[1..], b);
      }
    }
  }

  lemma {:induction false} StoreMissing(st: State, g: StreamFrame, b: nat)
    requires GapsFrom(-1, st.gaps) && g.data != [] && g.End() < MAX_U64
    ensures Missing(Store(st, g).0.gaps, b) <==> Missing(st.gaps, b) && !Covers(g, b)
  {
    if Begin(st.gaps, g.offset) < g.End() {
      FillMissing(st.gaps, g.offset, g.End(), b);
    } else {
      BeginIsFirst(-1, st.gaps, g.offset);
      FirstFromIsFirst(-1, st.gaps, g.offset, b);
    }
  }

  lemma {:induction false} StoreChained(st: State, g: StreamFrame)
    requires Begin(st.gaps, g.offset) == FirstFrom(st.gaps, g.offset)
    requires Valid(st) && g.data != [] && g.End() < MAX_U64 && Store(st, g).1 == Accepted
    ensures var st' := Store(st, g).0; GapsFrom(-1, st'.gaps) && Chained(st'.queued, st'.readPosition, st'.gaps)
  {
    StoreQueue(st, g);
    FillGaps(-1, st.gaps, g.offset, g.End());
    FillChained(st.queued, Store(st, g).0.queued, st.readPosition, -1, st.gaps, g.offset, g.End());
  }

  lemma {:induction false} StoreReceived(st: State, g: StreamFrame, o: nat, b: nat)
    requires Begin(st.gaps, g.offset) == FirstFrom(st.gaps, g.offset)
    requires Valid(st) && g.data != [] && g.End() < MAX_U64 && Store(st, g).1 == Accepted
    requires var q := Store(st, g).0.queued; o in q && o <= b < o + |q[o].data|
    ensures Store(st, g).0.queued[o].offset == o && !Missing(Store(st, g).0.gaps, b)
  {
    StoreQueue(st, g);
    StoreMissing(st, g, b);
  }

  /** The largest offset is still missing, so that a frame with data which reaches it is always refused. */
  lemma {:induction false} LastByteMissing(lo: int, gaps: seq<ByteInterval>)
    requires GapsFrom(lo, gaps) && lo < MAX_U64
    ensures Missing(gaps, MAX_U64 - 1)
    decreases |gaps|
  {
    GapsBounded(lo, gaps);
    if gaps[0].end < MAX_U64 {
      LastByteMissing(gaps[0].end, gaps[1..]);
    } else {
      GapsBounded(gaps[0].end, gaps[1..]);
    }
  }

  lemma {:induction false} LargestOffsetRefused(st: State, f: StreamFrame)
    requires Valid(st) && f.data != [] && f.End() == MAX_U64
    ensures Pushed(st, f).1 == NoEndGapFound
  {
    LastByteMissing(-1, st.gaps);
    var g := WithoutQueued(st.queued, f);
    StoreBegins(st, f);
    FirstFromIsFirst(-1, st.gaps, g.offset, MAX_U64 - 1);
  }

  /** Frames that can be stored at all. */
  predicate Storable(f: StreamFrame) {
    f.End() <= MAX_U64 && (f.data == [] || f.End() < MAX_U64)
  }

  /** The bytes that `WithoutQueued` drops have been received already. */
  lemma {:induction false} QueuedBytesReceived(st: State, f: StreamFrame, b: nat)
    requires QueuedReceived(st.gaps, st.queued)
    requires f.offset in st.queued ==> |st.queued[f.offset].data| < |f.data|
    ensures Missing(st.gaps, b) && Covers(f, b) <==> Missing(st.gaps, b) && Covers(WithoutQueued(st.queued, f), b)
  {
  }

  /**
    The gap list stays the exact complement of the bytes pushed, and the chain stays intact. The only
    frame this excludes is an empty FIN frame at the offset of a frame that is still to be read.
   */
  lemma {:induction false} PushRefines(st: State, f: StreamFrame)
    requires Valid(st) && Storable(f)
    requires f.data == [] ==> !OnChain(st.queued, st.readPosition, st.gaps, f.offset)
    ensures Pushed(st, f).1 != TooManyGaps ==> Valid(Pushed(st, f).0)
    ensures forall b: nat :: Missing(Pushed(st, f).0.gaps, b) <==> Missing(st.gaps, b) && !Covers(f, b)
  {
    if f.data == [] {
      FinKeepsChain(st, f);
    } else if f.offset in st.queued && |f.data| <= |st.queued[f.offset].data| {
      assert forall b: nat :: Covers(f, b) ==> f.offset <= b < f.offset + |st.queued[f.offset].data|;
    } else {
      var g := WithoutQueued(st.queued, f);
      StoreBegins(st, f);
      if Pushed(st, f).1 == Accepted {
        StoreQueue(st, g);
        StoreChained(st, g);
        var st' := Store(st, g).0;
        forall o, b | o in st'.queued && o <= b < o + |st'.queued[o].data| ensures !Missing(st'.gaps, b) {
          StoreReceived(st, g, o, b);
        }
      }
      forall b: nat ensures Missing(Pushed(st, f).0.gaps, b) <==> Missing(st.gaps, b) && !Covers(f, b) {
        QueuedBytesReceived(st, f, b);
        StoreMissing(st, g, b);
      }
    }
  }

  /** The gap list stays in order even where the chain is broken. */
  lemma {:induction false} PushGaps(st: State, f: StreamFrame)
    requires GapsFrom(-1, st.gaps) && f.End() <= MAX_U64 && Pushed(st, f).1 in {Accepted, Duplicate}
    ensures GapsFrom(-1, Pushed(st, f).0.gaps)
  {
    if f.data != [] && Pushed(st, f).1 == Accepted {
      var g := WithoutQueued(st.queued, f);
      FillGaps(-1, st.gaps, g.offset, g.End());
    }
  }

  /** `Duplicate` is reported exactly when the frame brings no new byte, and then nothing changes. */
  lemma {:induction false} PushDuplicate(st: State, f: StreamFrame)
    requires Valid(st) && f.End() < MAX_U64 && f.data != []
    ensures Pushed(st, f).1 == Duplicate <==> forall b :: Covers(f, b) ==> !Missing(st.gaps, b)
    ensures Pushed(st, f).1 == Duplicate ==> Pushed(st, f).0 == st
    ensures Pushed(st, f).1 in {Duplicate, Accepted, TooManyGaps}
  {
    if f.offset in st.queued && |f.data| <= |st.queued[f.offset].data| {
      assert forall b: nat :: Covers(f, b) ==> f.offset <= b < f.offset + |st.queued[f.offset].data|;
    } else {
      var g := WithoutQueued(st.queued, f);
      StoreBegins(st, f);
      var a := FirstFrom(st.gaps, g.offset);
      if a < g.End() {
        TrimBounds(-1, st.gaps, g.offset, g.End());
        FirstFromIsFirst(-1, st.gaps, g.offset, a);
        assert Missing(st.gaps, a) && Covers(f, a);
      } else {
        forall b | Covers(f, b) ensures !Missing(st.gaps, b) {
          QueuedBytesReceived(st, f, b);
          FirstFromIsFirst(-1, st.gaps, g.offset, b);
        }
      }
    }
  }

  // ----- Empty FIN frames -----

  /** Offset `o` is where a frame of the chain from `a` to `b` starts. */
  ghost predicate OnRun(q: map<nat, StreamFrame>, a: nat, b: nat, o: nat)
    decreases b - a
  {
    a < b && a in q && 0 < |q[a].data| && (o == a || OnRun(q, a + |q[a].data|, b, o))
  }

  /** Offset `o` is where a frame that will still be read starts. */
  ghost predicate OnChain(q: map<nat, StreamFrame>, p: nat, gaps: seq<ByteInterval>, o: nat)
    decreases |gaps|
  {
    gaps != [] && (OnRun(q, p, gaps[0].start, o) || OnChain(q, gaps[0].end, gaps[1..], o))
  }

  lemma {:induction false} OverwriteRun(q: map<nat, StreamFrame>, a: nat, b: nat, f: StreamFrame)
    requires Linked(q, a, b) && f.data == []
    ensures Linked(q[f.offset := f], a, b) <==> !OnRun(q, a, b, f.offset)
    decreases b - a
  {
    if a < b && a != f.offset {
      OverwriteRun(q, a + |q[a].data|, b, f);
    }
  }

  lemma {:induction false} OverwriteChain(q: map<nat, StreamFrame>, p: nat, gaps: seq<ByteInterval>, f: StreamFrame)
    requires Chained(q, p, gaps) && f.data == []
    ensures Chained(q[f.offset := f], p, gaps) <==> !OnChain(q, p, gaps, f.offset)
    decreases |gaps|
  {
    if gaps != [] {
      OverwriteRun(q, p, gaps[0].start, f);
      OverwriteChain(q, gaps[0].end, gaps[1..], f);
    }
  }

  /**
    An empty FIN frame replaces whatever is queued at its offset. It keeps the sorter valid exactly
    when no frame that is still to be read starts there.
   */
  lemma {:induction false} FinKeepsChain(st: State, f: StreamFrame)
    requires Valid(st) && f.data == [] && f.End() <= MAX_U64
    ensures f.fin ==> (Valid(Pushed(st, f).0) <==> !OnChain(st.queued, st.readPosition, st.gaps, f.offset))
    ensures Pushed(st, f).0.gaps == st.gaps
    ensures !f.fin ==> Pushed(st, f).0 == st
  {
    OverwriteChain(st.queued, st.readPosition, st.gaps, f);
  }

  /** A byte that has arrived is lost to an empty FIN frame at its offset: no pop returns it any more. */
  lemma {:induction false} FinReplacesFrame(id: nat, x: byte)
    ensures
      var st := Pushed(Init(), StreamFrame(id, false, true, 0, [x])).0;
      var fin := StreamFrame(id, true, true, 0, []);
      && Valid(st) && OnChain(st.queued, st.readPosition, st.gaps, 0)
      && Pushed(st, fin).1 == Accepted && !Missing(Pushed(st, fin).0.gaps, 0)
      && Popped(Pushed(st, fin).0).1 == Some(fin)
      && Popped(Popped(Pushed(st, fin).0).0).1 == None
  {
    var f := StreamFrame(id, false, true, 0, [x]);
    assert Init().gaps[1..] == [];
    assert !OnChain(Init().queued, 0, Init().gaps, 0);
    PushRefines(Init(), f);
    var st := Pushed(Init(), f).0;
    assert f.data[0..] == f.data && f.data[..1] == f.data && Cut(f, 0, 1) == f;
    assert st.gaps == [ByteInterval(1, MAX_U64)];
    assert st.queued == map[0 := f];
    assert st.gaps[1..] == [];
  }

  // ----- Contents -----

  ghost predicate QueueCarries(queued: map<nat, StreamFrame>, content: seq<byte>) {
    forall o :: o in queued ==> Carries(queued[o], content)
  }

  /** A frame that is still to be read starts within the content, and so an empty FIN at its end replaces none. */
  lemma {:induction false} ChainWithin(
    q: map<nat, StreamFrame>, p: nat, gaps: seq<ByteInterval>, o: nat, content: seq<byte>)
    requires OnChain(q, p, gaps, o) && KeysOk(q) && QueueCarries(q, content)
    ensures o < |content|
    decreases |gaps|
  {
    if OnRun(q, p, gaps[0].start, o) {
      RunWithin(q, p, gaps[0].start, o, content);
    } else {
      ChainWithin(q, gaps[0].end, gaps[1..], o, content);
    }
  }

  lemma {:induction false} RunWithin(q: map<nat, StreamFrame>, a: nat, b: nat, o: nat, content: seq<byte>)
    requires OnRun(q, a, b, o) && KeysOk(q) && QueueCarries(q, content)
    ensures o < |content|
    decreases b - a
  {
    assert Carries(q[a], content);
    if o != a {
      RunWithin(q, a + |q[a].data|, b, o, content);
    }
  }

  lemma {:induction false} CutCarries(g: StreamFrame, a: nat, b: nat, content: seq<byte>)
    requires g.offset <= a <= b <= g.End() && Carries(g, content)
    ensures Carries(Cut(g, a, b), content)
  {
    DropCarries(g, a - g.offset, content);
    TakeCarries(g.Drop(a - g.offset), b - a, content);
  }

  lemma {:induction false} StoreCarries(st: State, g: StreamFrame, content: seq<byte>)
    requires GapsFrom(-1, st.gaps) && g.data != [] && g.End() < MAX_U64
    requires QueueCarries(st.queued, content) && Carries(g, content)
    ensures QueueCarries(Store(st, g).0.queued, content)
  {
    var s, e := Begin(st.gaps, g.offset), LastBefore(st.gaps, g.End());
    if s < g.End() {
      BeginBounds(-1, st.gaps, g.offset, g.End());
      CutCarries(g, s, e, content);
      var queued := Store(st, g).0.queued;
      forall o | o in queued ensures Carries(queued[o], content) {
        assert queued[o] == Cut(g, s, e) || (o in st.queued && queued[o] == st.queued[o]);
      }
    }
  }

  /** If every frame pushed carries the sender's bytes, so does everything queued. */
  lemma {:induction false} PushCarries(st: State, f: StreamFrame, content: seq<byte>)
    requires GapsFrom(-1, st.gaps) && Storable(f)
    requires QueueCarries(st.queued, content) && Carries(f, content)
    ensures QueueCarries(Pushed(st, f).0.queued, content)
  {
    if f.data != [] && (f.offset !in st.queued || |st.queued[f.offset].data| < |f.data|) {
      if f.offset in st.queued {
        DropCarries(f, |st.queued[f.offset].data|, content);
      }
      StoreCarries(st, WithoutQueued(st.queued, f), content);
    }
  }

  // ----- The FIN bit -----

  /** Every queued frame that carries a FIN ends at offset `n`, the length of the stream. */
  ghost predicate FinsAt(queued: map<nat, StreamFrame>, n: nat) {
    forall o :: o in queued && queued[o].fin ==> queued[o].End() == n
  }

  lemma {:induction false} LastBeforeIsMissing(lo: int, gaps: seq<ByteInterval>, e: nat)
    requires GapsFrom(lo, gaps) && 0 < e
    ensures LastBefore(gaps, e) == e <==> Missing(gaps, e - 1)
    decreases |gaps|
  {
    if gaps != [] {
      LastBounded(gaps[1..], e);
      if e <= gaps[0].start {
        if Missing(gaps[1..], e - 1) {
          MissingAbove(gaps[0].end, gaps[1..], e - 1);
        }
      } else {
        LastBeforeIsMissing(gaps[0].end, gaps[1..], e);
      }
    }
  }

  /**
    Trimming the tail of a frame does not clear its FIN bit. The FIN of an accepted frame stays at the
    end of the stream exactly when the last byte of the frame was still missing; otherwise the reader
    will see the end of the stream too early.
   */
  lemma {:induction false} FinStaysAtEnd(st: State, f: StreamFrame, n: nat)
    requires Valid(st) && FinsAt(st.queued, n)
    requires f.data != [] && f.fin && f.End() == n && n < MAX_U64
    requires Pushed(st, f).1 == Accepted
    ensures FinsAt(Pushed(st, f).0.queued, n) <==> Missing(st.gaps, n - 1)
  {
    var g := WithoutQueued(st.queued, f);
    StoreBegins(st, f);
    StoreQueue(st, g);
    LastBeforeIsMissing(-1, st.gaps, n);
    var q, a := Pushed(st, f).0.queued, FirstFrom(st.gaps, g.offset);
    assert q[a].fin;
  }

  /** Only a frame with a FIN whose last byte came before it moves a FIN away from the end. */
  lemma {:induction false} FinsStay(st: State, f: StreamFrame, n: nat)
    requires Valid(st) && Storable(f) && FinsAt(st.queued, n) && Pushed(st, f).1 in {Accepted, Duplicate}
    requires f.fin ==> f.End() == n
    requires f.fin && f.data != [] && Pushed(st, f).1 == Accepted ==> Missing(st.gaps, n - 1)
    ensures FinsAt(Pushed(st, f).0.queued, n)
  {
    if f.data != [] && Pushed(st, f).1 == Accepted {
      if f.fin {
        FinStaysAtEnd(st, f, n);
      } else {
        StoreBegins(st, f);
        StoreQueue(st, WithoutQueued(st.queued, f));
      }
    }
  }

  /** Two frames of one finished stream, the later one first: the FIN ends up in the middle. */
  lemma {:induction false} EarlyEndOfStream(id: nat, x: byte, y: byte, dataLenPresent: bool)
    ensures
      var tail := StreamFrame(id, true, dataLenPresent, 1, [y]);
      var whole := StreamFrame(id, true, dataLenPresent, 0, [x, y]);
      var st := Pushed(Init(), tail).0;
      && Carries(tail, [x, y]) && Carries(whole, [x, y])
      && GapsFrom(-1, st.gaps)
      && Pushed(Init(), tail).1 == Pushed(st, whole).1 == Accepted
      && Pushed(st, whole).0.readPosition == 0
      && Popped(Pushed(st, whole).0).1 == Some(StreamFrame(id, true, dataLenPresent, 0, [x]))
  {
    var tail := StreamFrame(id, true, dataLenPresent, 1, [y]);
    var whole := StreamFrame(id, true, dataLenPresent, 0, [x, y]);
    var st := Pushed(Init(), tail).0;
    assert st.gaps == [ByteInterval(0, 1), ByteInterval(2, MAX_U64)] by {
      assert Init().gaps[1..] == [];
    }
    var last := [ByteInterval(2, MAX_U64)];
    assert st.gaps[1..] == last && last[1..] == [];
    assert FirstFrom(st.gaps, 0) == 0 && LastBefore(st.gaps, 2) == 1;
    assert Fill(last, 0, 2) == last;
    assert Fill(st.gaps, 0, 2) == Fill(last, 0, 2);
    assert whole.Drop(0).Take(1) == StreamFrame(id, true, dataLenPresent, 0, [x]);
  }

  // ----- Pop -----

  lemma {:induction false} PopRefines(st: State)
    requires Valid(st)
    ensures Valid(Popped(st).0) && Popped(st).0.gaps == st.gaps
    ensures st.readPosition <= FirstFrom(st.gaps, 0)
    ensures Popped(st).1.None? ==> st.readPosition == FirstFrom(st.gaps, 0)
    ensures Popped(st).1.Some? ==>
      Popped(st).1.value.offset == st.readPosition &&
      (Popped(st).1.value.data == [] <==> st.readPosition == FirstFrom(st.gaps, 0))
  {
    LinkedBounds(st.queued, st.readPosition, st.gaps[0].start);
    if st.readPosition in st.queued {
      var f := st.queued[st.readPosition];
      var q := st.queued - {f.offset};
      assert st.readPosition == st.gaps[0].start ==> Missing(st.gaps, st.readPosition);
      if st.readPosition < st.gaps[0].start {
        LinkedBounds(st.queued, f.End(), st.gaps[0].start);
        LinkedFrame(st.queued, q, f.End(), st.gaps[0].start);
      }
      ChainedFrame(st.queued, q, st.gaps[0].end, st.gaps[1..]);
    }
  }

  /** Pop until no frame with data is left at the read position. */
  function Drain(st: State): (r: (State, seq<byte>))
    requires Valid(st)
    decreases FirstFrom(st.gaps, 0) - st.readPosition
  {
    PopRefines(st);
    var (st', f) := Popped(st);
    if f.None? || f.value.data == [] then (st, [])
    else
      PopRefines(st');
      var (st'', rest) := Drain(st');
      (st'', f.value.data + rest)
  }

  /** Draining stops exactly at the first missing byte and returns the sender's bytes up to there. */
  lemma {:induction false} DrainReachesFirstMissing(st: State, content: seq<byte>)
    requires Valid(st) && QueueCarries(st.queued, content)
    ensures var (st', data) := Drain(st); var n := FirstFrom(st.gaps, 0);
      && Valid(st') && st'.readPosition == n
      && (forall b :: 0 <= b < n ==> !Missing(st.gaps, b)) && (n < MAX_U64 ==> Missing(st.gaps, n))
      && (st.readPosition < n ==> n <= |content| && data == content[st.readPosition..n])
      && (st.readPosition == n ==> data == [])
    decreases FirstFrom(st.gaps, 0) - st.readPosition
  {
    var n := FirstFrom(st.gaps, 0);
    forall b: nat | b < n ensures !Missing(st.gaps, b) {
      FirstFromIsFirst(-1, st.gaps, 0, b);
    }
    FirstFromIsFirst(-1, st.gaps, 0, n);
    PopRefines(st);
    var (st', f) := Popped(st);
    if f.Some? && f.value.data != [] {
      PopRefines(st');
      DrainReachesFirstMissing(st', content);
    }
  }

  // ----- Whole runs -----

  datatype Event = PushEvent(frame: StreamFrame) | PopEvent

  /** The event is not a push that fails, nor an empty FIN that overwrites a frame still to be read. */
  ghost predicate StepOk(st: State, ev: Event)
    requires GapsFrom(-1, st.gaps)
  {
    ev.PushEvent? ==>
      && Storable(ev.frame)
      && Pushed(st, ev.frame).1 in {Accepted, Duplicate, Empty}
      && (ev.frame.data == [] ==> !OnChain(st.queued, st.readPosition, st.gaps, ev.frame.offset))
  }

  /** The state after a run, if no event of the run fails. */
  ghost function Run(events: seq<Event>): (r: Option<State>)
    ensures r.Some? ==> Valid(r.value)
  {
    if events == [] then Some(Init())
    else
      var n := |events| - 1;
      var prev := Run(events[..n]);
      if prev.None? || !StepOk(prev.value, events[n]) then None
      else
        match events[n]
        case PushEvent(f) =>
          PushRefines(prev.value, f);
          Some(Pushed(prev.value, f).0)
        case PopEvent =>
          PopRefines(prev.value);
          Some(Popped(prev.value).0)
  }

  ghost predicate ReceivedIn(events: seq<Event>, b: nat) {
    exists i :: 0 <= i < |events| && events[i].PushEvent? && Covers(events[i].frame, b)
  }

  lemma {:induction false} ReceivedInLast(events: seq<Event>, ev: Event, b: nat)
    ensures ReceivedIn(events + [ev], b) <==> ReceivedIn(events, b) || (ev.PushEvent? && Covers(ev.frame, b))
  {
    var all := events + [ev];
    if ReceivedIn(events, b) {
      var i :| 0 <= i < |events| && events[i].PushEvent? && Covers(events[i].frame, b);
      assert all[i] == events[i];
    }
    assert all[|events|] == ev;
  }

  /** After any run, the gaps are exactly the bytes that no pushed frame contained. */
  lemma {:induction false} RunRefines(events: seq<Event>)
    requires Run(events).Some?
    ensures forall b: nat :: Missing(Run(events).value.gaps, b) <==> b < MAX_U64 && !ReceivedIn(events, b)
  {
    if events != [] {
      var n := |events| - 1;
      RunRefines(events[..n]);
      if events[n].PushEvent? {
        PushRefines(Run(events[..n]).value, events[n].frame);
      } else {
        PopRefines(Run(events[..n]).value);
      }
      forall b: nat ensures ReceivedIn(events, b) <==>
        ReceivedIn(events[..n], b) || (events[n].PushEvent? && Covers(events[n].frame, b))
      {
        ReceivedInLast(events[..n], events[n], b);
        assert events[..n] + [events[n]] == events;
      }
    }
  }

  // ----- The sorter as the source runs it: two scanning loops over the gap list -----

  lemma {:induction false} GapsSuffix(lo: int, a: seq<ByteInterval>, c: seq<ByteInterval>)
    requires GapsFrom(lo, a + c)
    ensures GapsFrom(if a == [] then lo else a[|a| - 1].end, c)
    decreases |a|
  {
    if a == [] {
      assert a + c == c;
    } else {
      assert (a + c)[1..] == a[1..] + c;
      GapsSuffix(a[0].end, a[1..], c);
    }
  }

  /** The gaps that end before the frame from `s` on. */
  ghost predicate AllEndBy(before: seq<ByteInterval>, s: nat) {
    before == [] || (before[0].end < s && AllEndBy(before[1..], s))
  }

  lemma {:induction false} AllEndByAppend(before: seq<ByteInterval>, g: ByteInterval, s: nat)
    requires AllEndBy(before, s) && g.end < s
    ensures AllEndBy(before + [g], s)
  {
    if before != [] {
      assert (before + [g])[1..] == before[1..] + [g];
      AllEndByAppend(before[1..], g, s);
    }
  }

  // Gaps that end before the frame play no part in storing it.

  lemma {:induction false} PassFirst(before: seq<ByteInterval>, at: seq<ByteInterval>, s: nat)
    requires AllEndBy(before, s)
    ensures Begin(before + at, s) == Begin(at, s)
  {
    if before == [] {
      assert before + at == at;
    } else {
      assert (before + at)[1..] == before[1..] + at;
      PassFirst(before[1..], at, s);
    }
  }

  lemma {:induction false} PassFill(lo: int, before: seq<ByteInterval>, at: seq<ByteInterval>, s: nat, e: nat)
    requires GapsFrom(lo, before + at) && AllEndBy(before, s) && s < e
    ensures Fill(before + at, s, e) == before + Fill(at, s, e)
    decreases |before|
  {
    if before == [] {
      assert before + at == at;
    } else {
      var g, rest := before[0], before[1..];
      assert (before + at)[1..] == rest + at && before == [g] + rest;
      PassFill(g.end, rest, at, s, e);
      FillPasses(g, rest, Fill(at, s, e), s, e);
    }
  }

  lemma {:induction false} FillPasses(g: ByteInterval, a: seq<ByteInterval>, c: seq<ByteInterval>, s: nat, e: nat)
    requires g.start < g.end <= s < e
    ensures Piece(g.start, Min(s, g.end)) + Piece(Max(e, g.start), g.end) + (a + c) == [g] + a + c
  {
  }

  lemma {:induction false} PassLast(lo: int, before: seq<ByteInterval>, at: seq<ByteInterval>, s: nat, e: nat)
    requires GapsFrom(lo, before + at) && AllEndBy(before, s) && at != [] && s < e && at[0].start < e
    ensures LastBefore(before + at, e) == LastBefore(at, e)
    decreases |before|
  {
    if before == [] {
      assert before + at == at;
    } else {
      assert (before + at)[1..] == before[1..] + at;
      PassLast(before[0].end, before[1..], at, s, e);
      GapsSuffix(before[0].end, before[1..], at);
      GapsAscend(before[0].end, before[1..], at);
      LastAbove(at[0].start - 1, at, e);
    }
  }

  lemma {:induction false} GapsAscend(lo: int, a: seq<ByteInterval>, c: seq<ByteInterval>)
    requires GapsFrom(lo, a + c) && c != []
    ensures lo < c[0].start
    decreases |a|
  {
    if a == [] {
      assert a + c == c;
    } else {
      assert (a + c)[1..] == a[1..] + c;
      GapsAscend(a[0].end, a[1..], c);
    }
  }

  lemma {:induction false} PassEnds(before: seq<ByteInterval>, at: seq<ByteInterval>, a: nat, b: nat)
    requires AllEndBy(before, a)
    ensures EndsBetween(before + at, a, b) == EndsBetween(at, a, b)
  {
    if before == [] {
      assert before + at == at;
    } else {
      assert (before + at)[1..] == before[1..] + at;
      PassEnds(before[1..], at, a, b);
    }
  }

  lemma {:induction false} PassOuter(before: seq<ByteInterval>, at: seq<ByteInterval>, a: nat)
    requires AllEndBy(before, a) && at != []
    ensures KeepOuter(before + at, a) == before + KeepOuter(at, a)
  {
    if before == [] {
      assert before + at == at;
    } else {
      var rest := before[1..] + at;
      assert (before + at)[1..] == rest && (before + at)[0] == before[0] && |before + at| > 1;
      PassOuter(before[1..], at, a);
      assert KeepOuter(before + at, a) == [before[0]] + KeepOuter(rest, a);
      Associate([before[0]], before[1..], KeepOuter(at, a));
      assert [before[0]] + before[1..] == before;
    }
  }

  // Gaps that the frame covers from end to end are dropped.

  /** The ends of a list of gaps. */
  function Ends(gaps: seq<ByteInterval>): set<nat> {
    if gaps == [] then {} else {gaps[0].end} + Ends(gaps[1..])
  }

  lemma {:induction false} EndsAppend(gaps: seq<ByteInterval>, g: ByteInterval)
    ensures Ends(gaps + [g]) == Ends(gaps) + {g.end}
  {
    if gaps != [] {
      assert (gaps + [g])[1..] == gaps[1..] + [g];
      EndsAppend(gaps[1..], g);
    } else {
      assert (gaps + [g])[1..] == [];
    }
  }

  lemma {:induction false} CoverLast(lo: int, mid: seq<ByteInterval>, at: seq<ByteInterval>, e: nat)
    requires GapsFrom(lo, mid + at) && at != [] && at[0].start < e
    ensures LastBefore(mid + at, e) == LastBefore(at, e)
    decreases |mid|
  {
    if mid == [] {
      assert mid + at == at;
    } else {
      assert (mid + at)[1..] == mid[1..] + at;
      CoverLast(mid[0].end, mid[1..], at, e);
      GapsSuffix(lo, mid, at);
      GapsAscend(mid[0].end, mid[1..], at);
      LastAbove(at[0].start - 1, at, e);
    }
  }

  lemma {:induction false} CoverEnds(lo: int, mid: seq<ByteInterval>, at: seq<ByteInterval>, a: nat, b: nat)
    requires GapsFrom(lo, mid + at) && at != [] && at[0].start < b && (mid != [] ==> a <= mid[0].end)
    ensures EndsBetween(mid + at, a, b) == Ends(mid) + EndsBetween(at, a, b)
    decreases |mid|
  {
    if mid == [] {
      assert mid + at == at;
    } else {
      assert (mid + at)[1..] == mid[1..] + at;
      GapsAscend(mid[0].end, mid[1..], at);
      CoverEnds(mid[0].end, mid[1..], at, a, b);
    }
  }

  /** Gaps above offset `s` that the frame covers leave nothing behind. */
  lemma {:induction false} CoverFill(lo: int, mid: seq<ByteInterval>, at: seq<ByteInterval>, s: nat, e: nat)
    requires GapsFrom(lo, mid + at) && at != [] && at[0].start < e && s <= lo
    ensures Fill(mid + at, s, e) == Fill(at, s, e)
    decreases |mid|
  {
    if mid == [] {
      assert mid + at == at;
    } else {
      assert (mid + at)[1..] == mid[1..] + at;
      GapsAscend(mid[0].end, mid[1..], at);
      CoverFill(mid[0].end, mid[1..], at, s, e);
      assert Piece(mid[0].start, Min(s, mid[0].end)) == [] && Piece(Max(e, mid[0].start), mid[0].end) == [];
    }
  }

  lemma {:induction false} NoEndsBetween(lo: int, gaps: seq<ByteInterval>, a: nat, b: nat)
    requires GapsFrom(lo, gaps) && b <= lo
    ensures EndsBetween(gaps, a, b) == {}
    decreases |gaps|
  {
    if gaps != [] {
      NoEndsBetween(gaps[0].end, gaps[1..], a, b);
    }
  }

  /** The frame ends in gap `endGap` or between it and the next gap. */
  ghost predicate EndsAt(endGap: ByteInterval, after: seq<ByteInterval>, e: nat) {
    endGap.start < e && (e < endGap.end || (after != [] && e <= after[0].start))
  }

  lemma {:induction false} LastGapFill(lo: int, endGap: ByteInterval, after: seq<ByteInterval>, s: nat, e: nat)
    requires GapsFrom(lo, [endGap] + after) && EndsAt(endGap, after, e) && s < e && s <= endGap.end
    ensures Fill([endGap] + after, s, e) == Piece(endGap.start, s) + Piece(e, endGap.end) + after
  {
    assert ([endGap] + after)[1..] == after;
    FillBelow(endGap.end, after, s, e);
  }

  lemma {:induction false} LastGapBounds(lo: int, endGap: ByteInterval, after: seq<ByteInterval>, e: nat, a: nat)
    requires GapsFrom(lo, [endGap] + after) && EndsAt(endGap, after, e)
    ensures e < MAX_U64
    ensures LastBefore([endGap] + after, e) == Min(e, endGap.end)
    ensures EndsBetween([endGap] + after, a, Min(e, endGap.end)) == {}
  {
    assert ([endGap] + after)[1..] == after;
    GapsBounded(endGap.end, after);
    if after != [] {
      GapsBounded(after[0].end, after[1..]);
    }
    NoEndsBetween(endGap.end, after, a, Min(e, endGap.end));
  }

  /**
    What both scans together have found: the gaps are `before`, which end before the frame, then
    `from`; and `from` consists of `mid`, which the frame covers, and then the last gap it overlaps.
   */
  ghost predicate Scanned(
    gaps: seq<ByteInterval>, before: seq<ByteInterval>, from: seq<ByteInterval>,
    mid: seq<ByteInterval>, endGap: ByteInterval, after: seq<ByteInterval>, s: nat, e: nat)
  {
    && GapsFrom(-1, gaps) && gaps == before + from && from == mid + ([endGap] + after)
    && AllEndBy(before, s) && s <= from[0].end && from[0].start < e && s < e <= MAX_U64
    && endGap.start < e
  }

  lemma {:induction false} CoveredFill(
    lo: int, g: ByteInterval, mid: seq<ByteInterval>, endGap: ByteInterval, after: seq<ByteInterval>, s: nat, e: nat)
    requires GapsFrom(lo, [g] + (mid + ([endGap] + after))) && EndsAt(endGap, after, e) && s <= g.end && s < e
    ensures Fill([g] + (mid + ([endGap] + after)), s, e) == Piece(g.start, s) + Piece(e, endGap.end) + after
  {
    var at := [endGap] + after;
    assert ([g] + (mid + at))[1..] == mid + at;
    assert GapsFrom(g.end, mid + at) && g.end <= endGap.start by {
      GapsAscend(g.end, mid, at);
    }
    assert Fill(mid + at, s, e) == Piece(e, endGap.end) + after by {
      GapsSuffix(g.end, mid, at);
      CoverFill(g.end, mid, at, s, e);
      LastGapFill(endGap.start - 1, endGap, after, s, e);
    }
    assert Piece(Max(e, g.start), g.end) == [];
  }

  lemma {:induction false} ScannedFill(
    gaps: seq<ByteInterval>, before: seq<ByteInterval>, from: seq<ByteInterval>,
    mid: seq<ByteInterval>, endGap: ByteInterval, after: seq<ByteInterval>, s: nat, e: nat)
    requires Scanned(gaps, before, from, mid, endGap, after, s, e) && EndsAt(endGap, after, e)
    ensures Fill(gaps, s, e) == before + (Piece(from[0].start, s) + Piece(e, endGap.end) + after)
  {
    PassFill(-1, before, from, s, e);
    GapsSuffix(-1, before, from);
    var lo := if before == [] then -1 else before[|before| - 1].end;
    if mid == [] {
      assert from == [endGap] + after;
      LastGapFill(lo, endGap, after, s, e);
    } else {
      assert from == [mid[0]] + (mid[1..] + ([endGap] + after));
      CoveredFill(lo, mid[0], mid[1..], endGap, after, s, e);
    }
  }

  lemma {:induction false} ScannedBounds(
    gaps: seq<ByteInterval>, before: seq<ByteInterval>, from: seq<ByteInterval>,
    mid: seq<ByteInterval>, endGap: ByteInterval, after: seq<ByteInterval>, s: nat, e: nat)
    requires Scanned(gaps, before, from, mid, endGap, after, s, e) && EndsAt(endGap, after, e)
    ensures e < MAX_U64
    ensures Begin(gaps, s) == Max(s, from[0].start) && LastBefore(gaps, e) == Min(e, endGap.end)
    ensures Begin(gaps, s) <= LastBefore(gaps, e)
    ensures from[0].start < from[0].end
    ensures if mid == [] then endGap == from[0] else from[0].end < endGap.start < endGap.end
    ensures EndsBetween(gaps, Begin(gaps, s), LastBefore(gaps, e)) == Ends(mid)
  {
    var at, a, b := [endGap] + after, Max(s, from[0].start), Min(e, endGap.end);
    var lo := if before == [] then -1 else before[|before| - 1].end;
    GapsSuffix(-1, before, from);
    GapsSuffix(lo, mid, at);
    LastGapBounds(endGap.start - 1, endGap, after, e, a);
    PassFirst(before, from, s);
    PassLast(-1, before, from, s, e);
    CoverLast(lo, mid, at, e);
    BeginBounds(-1, gaps, s, e);
    AllEndByMore(before, s, a);
    PassEnds(before, from, a, b);
    assert mid != [] ==> from[0] == mid[0];
    if mid != [] {
      assert from[1..] == mid[1..] + at;
      GapsAscend(from[0].end, mid[1..], at);
    }
    CoverEnds(lo, mid, at, a, b);
  }

  lemma {:induction false} AllEndByMore(before: seq<ByteInterval>, s: nat, a: nat)
    requires AllEndBy(before, s) && s <= a
    ensures AllEndBy(before, a)
  {
    if before != [] {
      AllEndByMore(before[1..], s, a);
    }
  }

  lemma {:induction false} ScannedPastEnd(
    gaps: seq<ByteInterval>, before: seq<ByteInterval>, from: seq<ByteInterval>,
    mid: seq<ByteInterval>, endGap: ByteInterval, s: nat, e: nat)
    requires Scanned(gaps, before, from, mid, endGap, [], s, e) && endGap.end <= e
    ensures e == MAX_U64
    ensures Begin(gaps, s) < e
    ensures EndsBetween(gaps, Begin(gaps, s), MAX_U64) == Ends(mid)
    ensures KeepOuter(gaps, Begin(gaps, s)) == before + (if mid == [] then [endGap] else [from[0], endGap])
  {
    var at, a := [endGap], Max(s, from[0].start);
    assert [endGap] + [] == at && at[1..] == [];
    var lo := if before == [] then -1 else before[|before| - 1].end;
    GapsSuffix(-1, before, from);
    GapsSuffix(lo, mid, at);
    PassFirst(before, from, s);
    AllEndByMore(before, s, a);
    PassEnds(before, from, a, MAX_U64);
    PassOuter(before, from, a);
    CoverEnds(lo, mid, at, a, MAX_U64);
  }

  lemma {:induction false} CutInSteps(g: StreamFrame, s: nat, e: nat)
    requires g.offset <= s <= e <= g.End()
    ensures var d := if g.offset < s then g.Drop(s - g.offset) else g;
      Cut(g, s, e) == if e < g.End() then d.Take(|d.data| - (g.End() - e)) else d
  {
  }

  /** Cut off what lies outside the gaps, first at the front, then at the end. */
  method Trim(g: StreamFrame, start: nat, end: nat) returns (frame: StreamFrame)
    requires g.offset <= start <= end <= g.End()
    ensures frame == Cut(g, start, end)
  {
    frame := g;
    if g.offset < start {
      frame := frame.Drop(start - g.offset);
    }
    if end < g.End() {
      frame := frame.Take(|frame.data| - (g.End() - end));
    }
    CutInSteps(g, start, end);
  }

  /** A position in the source's linked list is kept as the gaps before it and the gaps from it on. */
  class Sorter {
    var gaps: seq<ByteInterval>
    var queued: map<nat, StreamFrame>
    var readPosition: nat

    ghost function Contents(): State
      reads this
    {
      State(gaps, queued, readPosition)
    }

    constructor ()
      ensures Contents() == Init()
    {
      gaps := [ByteInterval(0, MAX_U64)];
      queued := map[];
      readPosition := 0;
    }

    /** Skip the gaps before the frame. */
    method FindGap(start: nat, end: nat)
      returns (r: PushResult, before: seq<ByteInterval>, from: seq<ByteInterval>)
      requires GapsFrom(-1, gaps) && start < end <= MAX_U64
      ensures r in {Accepted, Duplicate}
      ensures r == Duplicate ==> end <= Begin(gaps, start)
      ensures r == Accepted ==> gaps == before + from && AllEndBy(before, start)
      ensures r == Accepted ==> from != [] && start <= from[0].end && from[0].start < end
    {
      before, from := [], gaps;
      ghost var lo := -1;
      while from != []
        invariant gaps == before + from && AllEndBy(before, start)
        invariant GapsFrom(lo, from) && lo < start
        decreases |from|
      {
        if end <= from[0].start {
          PassFirst(before, from, start);
          return Duplicate, before, from;
        }
        if end > from[0].start && start <= from[0].end {
          return Accepted, before, from;
        }
        AllEndByAppend(before, from[0], start);
        before, from, lo := before + [from[0]], from[1..], from[0].end;
      }
      r := NoGapFound;
    }

    /**
      Walk from gap `from[0]` to the last gap that the frame overlaps, dropping the queued frames at
      the ends of the gaps in between.
     */
    method FindEndGap(from: seq<ByteInterval>, end: nat)
      returns (endGap: ByteInterval, same: bool, after: seq<ByteInterval>, found: bool, ghost mid: seq<ByteInterval>)
      requires from != [] && from[0].start < end
      modifies this`queued
      ensures from == mid + ([endGap] + after) && (same <==> mid == []) && endGap.start < end
      ensures queued == old(queued) - Ends(mid)
      ensures if found then EndsAt(endGap, after, end) else after == [] && endGap.end <= end
    {
      mid, endGap, after, same := [], from[0], from[1..], true;
      while end >= endGap.end
        invariant from == mid + ([endGap] + after) && (same <==> mid == []) && endGap.start < end
        invariant queued == old(queued) - Ends(mid)
        decreases |after|
      {
        if after == [] {
          return endGap, same, after, false, mid;
        }
        var nextEndGap := after[0];
        if end <= nextEndGap.start {
          break;
        }
        queued := queued - {endGap.end};
        EndsAppend(mid, endGap);
        mid := mid + [endGap];
        endGap, after, same := nextEndGap, after[1..], false;
      }
      found := true;
    }

    /** Shrink, split or remove the gaps at both ends of the stored frame. */
    method ShrinkGaps(
      before: seq<ByteInterval>, gap: ByteInterval, endGap: ByteInterval, same: bool, after: seq<ByteInterval>,
      start: nat, end: nat)
      requires gap.start <= start <= gap.end && gap.start < gap.end && start <= end <= endGap.end
      requires if same then endGap == gap && (start < end || start == gap.end) else gap.end <= end
      modifies this`gaps
      ensures gaps == before + (Piece(gap.start, start) + Piece(end, endGap.end) + after)
    {
      if start == gap.start {
        gaps := before + after;
        if end < endGap.end {
          gaps := before + [endGap.(start := end)] + after;
        }
      } else if end == endGap.end {
        gaps := before + [gap.(end := start)] + after;
      } else if same {
        gaps := before + [gap.(end := start), ByteInterval(end, gap.end)] + after;
      } else {
        gaps := before + [gap.(end := start), endGap.(start := end)] + after;
      }
    }

    /** Store what is left of a frame after the bytes queued at its offset have been cut off. */
    method StoreFrame(g: StreamFrame) returns (r: PushResult)
      requires GapsFrom(-1, gaps) && g.data != [] && g.End() <= MAX_U64
      modifies this`gaps, this`queued
      ensures (Contents(), r) == Store(old(Contents()), g)
    {
      var start, end := g.offset, g.End();
      var before, from;
      r, before, from := FindGap(start, end);
      if r != Accepted {
        return;
      }
      var gap := from[0];
      var endGap, same, after, found, mid := FindEndGap(from, end);
      if !found {
        ScannedPastEnd(gaps, before, from, mid, endGap, start, end);
        gaps := before + (if same then [endGap] else [gap, endGap]);
        return NoEndGapFound;
      }
      ScannedBounds(gaps, before, from, mid, endGap, after, start, end);
      ScannedFill(gaps, before, from, mid, endGap, after, start, end);
      r := StoreBetween(g, before, gap, endGap, same, after);
    }

    /** Trim the frame to the gaps at its two ends, shrink the gaps, and queue the frame. */
    method StoreBetween(
      g: StreamFrame, before: seq<ByteInterval>, gap: ByteInterval, endGap: ByteInterval, same: bool,
      after: seq<ByteInterval>) returns (r: PushResult)
      requires gap.start < gap.end && g.offset <= gap.end && endGap.start < g.End()
      requires Max(g.offset, gap.start) <= Min(g.End(), endGap.end) && g.offset < g.End()
      requires if same then endGap == gap else gap.end < endGap.start < endGap.end
      modifies this`gaps, this`queued
      ensures gaps == before + (Piece(gap.start, g.offset) + Piece(g.End(), endGap.end) + after)
      ensures r == if |gaps| > MAX_GAPS then TooManyGaps else Accepted
      ensures var s, e := Max(g.offset, gap.start), Min(g.End(), endGap.end);
        queued == if r == TooManyGaps then old(queued) else old(queued)[s := Cut(g, s, e)]
    {
      var start, end := Max(g.offset, gap.start), Min(g.End(), endGap.end);
      var frame := Trim(g, start, end);
      ShrinkGaps(before, gap, endGap, same, after, start, end);
      assert Piece(gap.start, start) == Piece(gap.start, g.offset);
      assert Piece(end, endGap.end) == Piece(g.End(), endGap.end);
      if |gaps| > MAX_GAPS {
        return TooManyGaps;
      }
      queued := queued[start := frame];
      r := Accepted;
    }

    method Push(f: StreamFrame) returns (r: PushResult)
      requires GapsFrom(-1, gaps) && f.End() <= MAX_U64
      modifies this
      ensures (Contents(), r) == Pushed(old(Contents()), f)
    {
      if f.data == [] {
        if f.fin {
          queued := queued[f.offset := f];
          return Accepted;
        }
        return Empty;
      }
      var frame := f;
      if frame.offset in queued {
        var oldFrame := queued[frame.offset];
        if |frame.data| <= |oldFrame.data| {
          return Duplicate;
        }
        frame := frame.Drop(|oldFrame.data|);
      }
      r := StoreFrame(frame);
    }

    method Pop() returns (r: Option<StreamFrame>)
      modifies this`queued, this`readPosition
      ensures (Contents(), r) == Popped(old(Contents()))
    {
      r := Head();
      if r.Some? {
        readPosition := readPosition + |r.value.data|;
        queued := queued - {r.value.offset};
      }
    }

    method Head() returns (r: Option<StreamFrame>)
      ensures r == Popped(Contents()).1
    {
      if readPosition in queued {
        return Some(queued[readPosition]);
      }
      return None;
    }
  }
}
