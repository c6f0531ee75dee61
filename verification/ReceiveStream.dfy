/**
  The receiving half of a stream (quic-go/stream.go): frames go into the sorter, reads take bytes from the
  frame at its head. A read that would wait returns what it has; deadlines and resets are not modelled.
 */
module ReceiveStream {
  import opened Basics
  import opened StreamFrames
  import S = StreamFrameSorter

  datatype State = State(sorter: S.State, readOffset: nat, finished: bool)

  function Init(): State {
    State(S.Init(), 0, false)
  }

  /** Duplicate data are not an error; other refusals end the connection. */
  function AddFrame(st: State, f: StreamFrame): (State, bool)
    requires S.GapsFrom(-1, st.sorter.gaps) && f.End() <= MAX_U64
  {
    var (sorter, r) := S.Pushed(st.sorter, f);
    (st.(sorter := sorter), r == S.Accepted || r == S.Duplicate)
  }

  datatype Ending = Filled | Waiting | EndOfStream | BadPosition

  datatype ReadResult = ReadResult(st: State, data: seq<byte>, ending: Ending)

  /**
    What the head frame contributes to a read of `n` bytes, and whether the read ends with it. Frames are
    queued under their offset, so the position within the frame is the only thing that could be wrong.
   */
  datatype Chunk = Chunk(st: State, data: seq<byte>, ending: Option<Ending>)

  function ReadChunk(st: State, n: nat): Chunk {
    if st.sorter.readPosition !in st.sorter.queued then Chunk(st, [], Some(Waiting))
    else
      var f := st.sorter.queued[st.sorter.readPosition];
      var pos := st.readOffset - f.offset;
      if f.offset != st.sorter.readPosition || pos < 0 || pos > |f.data| then Chunk(st, [], Some(BadPosition))
      else
        var m := Min(n, |f.data| - pos);
        var st1 := st.(readOffset := st.readOffset + m);
        var data := f.data[pos..pos + m];
        if pos + m < |f.data| then Chunk(st1, data, Some(Filled))
        else
          var popped := st1.(sorter := S.Popped(st.sorter).0);
          if f.fin then Chunk(popped.(finished := true), data, Some(EndOfStream)) else Chunk(popped, data, None)
  }

  /** A chunk that does not end the read has used up the head frame. */
  lemma {:induction false} ChunkShrinks(st: State, n: nat)
    requires ReadChunk(st, n).ending.None?
    ensures var c := ReadChunk(st, n);
      && c.st.finished == st.finished
      && |c.data| <= n && |c.st.sorter.queued| < |st.sorter.queued|
  {
    var rp, queued := st.sorter.readPosition, st.sorter.queued;
    assert queued == (queued - {rp})[rp := queued[rp]];
  }

  /** Read up to `n` bytes. */
  function Read(st: State, n: nat): ReadResult
    decreases |st.sorter.queued|
  {
    if st.finished then ReadResult(st, [], EndOfStream)
    else if n == 0 then ReadResult(st, [], Filled)
    else
      var c := ReadChunk(st, n);
      if c.ending.Some? then ReadResult(c.st, c.data, c.ending.value)
      else
        ChunkShrinks(st, n);
        var rest := Read(c.st, n - |c.data|);
        rest.(data := c.data + rest.data)
  }

  // ----- Safety: what is read is what was sent -----

  /** Every queued frame carries its part of the content, and reading has not passed the read position. */
  ghost predicate Good(st: State, content: seq<byte>) {
    && S.GapsFrom(-1, st.sorter.gaps)
    && S.KeysOk(st.sorter.queued)
    && S.QueueCarries(st.sorter.queued, content)
    && st.sorter.readPosition <= st.readOffset <= |content|
  }

  lemma {:induction false} SubSlice(content: seq<byte>, a: nat, b: nat, i: nat, j: nat)
    requires a <= b <= |content| && i <= j <= b - a
    ensures content[a..b][i..j] == content[a + i..a + j]
  {
    var x, y := content[a..b][i..j], content[a + i..a + j];
    forall k | 0 <= k < j - i ensures x[k] == y[k] {
      assert x[k] == content[a..b][i + k] == content[a + i + k];
    }
  }

  lemma {:induction false} JoinSlices(content: seq<byte>, a: nat, b: nat, c: nat)
    requires a <= b <= c <= |content|
    ensures content[a..b] + content[b..c] == content[a..c]
  {
  }

  /** The bytes `data` lie between the two read offsets. */
  ghost predicate Next(st: State, st': State, data: seq<byte>, n: nat, content: seq<byte>) {
    && Good(st', content)
    && st.readOffset <= st'.readOffset <= st.readOffset + n && st'.readOffset <= |content|
    && data == content[st.readOffset..st'.readOffset]
  }

  lemma {:induction false} ChunkIsNext(st: State, n: nat, content: seq<byte>)
    requires Good(st, content)
    ensures var c := ReadChunk(st, n); Next(st, c.st, c.data, n, content)
  {
    if st.sorter.readPosition in st.sorter.queued {
      var f := st.sorter.queued[st.sorter.readPosition];
      var pos := st.readOffset - f.offset;
      assert Carries(f, content);
      if pos <= |f.data| {
        SubSlice(content, f.offset, f.End(), pos, pos + Min(n, |f.data| - pos));
      }
    }
  }

  lemma {:induction false} NextJoins(
    st: State, mid: State, end: State, a: seq<byte>, b: seq<byte>, n: nat, content: seq<byte>)
    requires Next(st, mid, a, n, content) && Next(mid, end, b, n - |a|, content)
    ensures Next(st, end, a + b, n, content)
  {
    JoinSlices(content, st.readOffset, mid.readOffset, end.readOffset);
  }

  /** A read returns the next bytes of the content, no more than asked for. */
  lemma {:induction false} ReadIsNext(st: State, n: nat, content: seq<byte>)
    requires Good(st, content)
    ensures var r := Read(st, n); Next(st, r.st, r.data, n, content)
    decreases |st.sorter.queued|
  {
    if !st.finished && n > 0 {
      var c, rest := ReadChunk(st, n), After(st, n);
      assert Next(st, rest.st, c.data + rest.data, n, content) by {
        ChunkIsNext(st, n, content);
        if c.ending.None? {
          ChunkShrinks(st, n);
          ReadIsNext(c.st, n - |c.data|, content);
          NextJoins(st, c.st, rest.st, c.data, rest.data, n, content);
        } else {
          assert c.data + [] == c.data;
        }
      }
      ReadUnfolds(st, n);
    }
  }

  /** What a read does after its first chunk. */
  function After(st: State, n: nat): ReadResult {
    var c := ReadChunk(st, n);
    if c.ending.None? then Rest(st, n) else ReadResult(c.st, [], c.ending.value)
  }

  lemma {:induction false} ReadUnfolds(st: State, n: nat)
    requires !st.finished && n > 0
    ensures Read(st, n) == After(st, n).(data := ReadChunk(st, n).data + After(st, n).data)
    ensures ReadChunk(st, n).ending.Some? ==> Read(st, n).data == ReadChunk(st, n).data
  {
    assert ReadChunk(st, n).data + [] == ReadChunk(st, n).data;
  }

  /** The read after a chunk that does not end it. */
  function Rest(st: State, n: nat): ReadResult
    requires ReadChunk(st, n).ending.None?
  {
    ChunkShrinks(st, n);
    Read(ReadChunk(st, n).st, n - |ReadChunk(st, n).data|)
  }

  /** A push that is not refused keeps the sorter in order; content may have grown meanwhile. */
  lemma {:induction false} AddIsGood(st: State, f: StreamFrame, content: seq<byte>)
    requires Good(st, content) && Carries(f, content) && S.Storable(f)
    ensures AddFrame(st, f).1 ==> Good(AddFrame(st, f).0, content)
  {
    S.PushCarries(st.sorter, f, content);
    PushKeys(st.sorter, f);
  }

  lemma {:induction false} PushKeys(sorter: S.State, f: StreamFrame)
    requires S.GapsFrom(-1, sorter.gaps) && S.KeysOk(sorter.queued) && S.Storable(f)
    ensures var sorter' := S.Pushed(sorter, f).0;
      S.GapsFrom(-1, sorter'.gaps) && S.KeysOk(sorter'.queued) && sorter'.readPosition == sorter.readPosition
  {
    if f.data != [] && !(f.offset in sorter.queued && |f.data| <= |sorter.queued[f.offset].data|) {
      var g := S.WithoutQueued(sorter.queued, f);
      if S.Begin(sorter.gaps, g.offset) < g.End() {
        S.FillGaps(-1, sorter.gaps, g.offset, g.End());
      }
    }
  }

  lemma {:induction false} MoreContent(st: State, content: seq<byte>, content': seq<byte>)
    requires Good(st, content) && content <= content'
    ensures Good(st, content')
  {
    forall o | o in st.sorter.queued ensures Carries(st.sorter.queued[o], content') {
      var f := st.sorter.queued[o];
      assert Carries(f, content);
      assert content'[f.offset..f.End()] == content[f.offset..f.End()];
    }
  }

  // ----- The position within the head frame -----

  /** A partly read frame stays at the head, and no more of it has been read than there is. */
  ghost predicate Positioned(st: State) {
    && S.Valid(st.sorter)
    && st.sorter.readPosition <= st.readOffset
    && (st.readOffset > st.sorter.readPosition ==>
        && st.sorter.readPosition in st.sorter.queued
        && st.readOffset < st.sorter.readPosition + |st.sorter.queued[st.sorter.readPosition].data|)
  }

  /** Frames that arrive do not touch a frame at the head that has data, unless a FIN falls onto it. */
  lemma {:induction false} HeadStays(sorter: S.State, f: StreamFrame)
    requires S.Valid(sorter) && S.Storable(f)
    requires f.data == [] ==> !S.OnChain(sorter.queued, sorter.readPosition, sorter.gaps, f.offset)
    requires sorter.readPosition in sorter.queued && sorter.queued[sorter.readPosition].data != []
    ensures var sorter' := S.Pushed(sorter, f).0;
      && sorter'.readPosition == sorter.readPosition && sorter.readPosition in sorter'.queued
      && sorter'.queued[sorter.readPosition] == sorter.queued[sorter.readPosition]
  {
    var rp := sorter.readPosition;
    if f.data == [] {
      HeadOnChain(sorter);
    } else if !(f.offset in sorter.queued && |f.data| <= |sorter.queued[f.offset].data|) {
      var g := S.WithoutQueued(sorter.queued, f);
      var s := S.FirstFrom(sorter.gaps, g.offset);
      S.StoreBegins(sorter, f);
      if s < g.End() {
        HeadNotCovered(sorter, g.offset, s, S.LastBefore(sorter.gaps, g.End()));
      }
    }
  }

  /** The head frame has arrived, and lies below everything that is missing. */
  lemma {:induction false} HeadNotCovered(sorter: S.State, start: nat, s: nat, e: nat)
    requires S.Valid(sorter) && s == S.FirstFrom(sorter.gaps, start) < MAX_U64
    requires sorter.readPosition in sorter.queued && sorter.queued[sorter.readPosition].data != []
    ensures sorter.readPosition < s && sorter.readPosition !in S.EndsBetween(sorter.gaps, s, e)
  {
    var rp := sorter.readPosition;
    assert rp < s by {
      S.FirstFromIsFirst(-1, sorter.gaps, start, rp);
      S.PopRefines(sorter);
      S.FirstFromIsFirst(-1, sorter.gaps, 0, s);
    }
    if rp in S.EndsBetween(sorter.gaps, s, e) {
      S.EndsBetweenBounds(sorter.gaps, s, e, rp);
      assert false;
    }
  }

  lemma {:induction false} HeadOnChain(sorter: S.State)
    requires S.Valid(sorter)
    requires sorter.readPosition in sorter.queued && sorter.queued[sorter.readPosition].data != []
    ensures S.OnChain(sorter.queued, sorter.readPosition, sorter.gaps, sorter.readPosition)
  {
    S.PopRefines(sorter);
  }

  lemma {:induction false} AddKeepsPosition(st: State, f: StreamFrame)
    requires Positioned(st) && S.Storable(f)
    requires f.data == [] ==> !S.OnChain(st.sorter.queued, st.sorter.readPosition, st.sorter.gaps, f.offset)
    ensures AddFrame(st, f).1 ==> Positioned(AddFrame(st, f).0)
  {
    S.PushRefines(st.sorter, f);
    PushKeys(st.sorter, f);
    if st.readOffset > st.sorter.readPosition {
      HeadStays(st.sorter, f);
    }
  }

  lemma {:induction false} ChunkKeepsPosition(st: State, n: nat)
    requires Positioned(st) && n > 0
    ensures var c := ReadChunk(st, n); Positioned(c.st) && c.ending != Some(BadPosition)
  {
    if st.sorter.readPosition in st.sorter.queued {
      S.PopRefines(st.sorter);
    }
  }

  /** A read never finds its position outside the head frame, and keeps it inside. */
  lemma {:induction false} ReadKeepsPosition(st: State, n: nat)
    requires Positioned(st)
    ensures Positioned(Read(st, n).st) && Read(st, n).ending != BadPosition
    decreases |st.sorter.queued|
  {
    if !st.finished && n > 0 {
      ChunkKeepsPosition(st, n);
      var c := ReadChunk(st, n);
      if c.ending.None? {
        ChunkShrinks(st, n);
        ReadKeepsPosition(c.st, n - |c.data|);
      }
    }
  }

  // ----- Progress -----

  lemma {:induction false} ChunkKeepsGaps(st: State, n: nat)
    ensures ReadChunk(st, n).st.sorter.gaps == st.sorter.gaps
  {
  }

  lemma {:induction false} ReadKeepsGaps(st: State, n: nat)
    ensures Read(st, n).st.sorter.gaps == st.sorter.gaps
    decreases |st.sorter.queued|
  {
    if !st.finished && n > 0 {
      var c := ReadChunk(st, n);
      assert c.st.sorter.gaps == st.sorter.gaps by {
        ChunkKeepsGaps(st, n);
      }
      assert Read(st, n).st == After(st, n).st by {
        ReadUnfolds(st, n);
      }
      if c.ending.None? {
        ChunkShrinks(st, n);
        ReadKeepsGaps(c.st, n - |c.data|);
      }
    }
  }

  /** A chunk after which the read waits or is filled has come as far as it could. */
  lemma {:induction false} ChunkReaches(st: State, n: nat)
    requires Positioned(st) && st.readOffset + n >= S.FirstFrom(st.sorter.gaps, 0)
    ensures st.readOffset <= S.FirstFrom(st.sorter.gaps, 0)
    ensures var c := ReadChunk(st, n);
      && c.st.sorter.gaps == st.sorter.gaps
      && c.st.readOffset == st.readOffset + |c.data| <= S.FirstFrom(st.sorter.gaps, 0)
      && (c.ending.Some? && !c.st.finished ==> c.st.readOffset == S.FirstFrom(st.sorter.gaps, 0))
  {
    S.PopRefines(st.sorter);
    S.PopRefines(S.Popped(st.sorter).0);
  }

  /** A read that is long enough and does not end the stream reaches the first byte that has not arrived. */
  lemma {:induction false} ReadReaches(st: State, n: nat)
    requires Positioned(st) && st.readOffset + n >= S.FirstFrom(st.sorter.gaps, 0)
    ensures !Read(st, n).st.finished ==> Read(st, n).st.readOffset == S.FirstFrom(st.sorter.gaps, 0)
    decreases |st.sorter.queued|
  {
    ChunkReaches(st, n);
    if !st.finished && n > 0 {
      var c := ReadChunk(st, n);
      if c.ending.None? {
        ChunkShrinks(st, n);
        ChunkKeepsPosition(st, n);
        ReadReaches(c.st, n - |c.data|);
      }
    }
  }

  // ----- The stream as an object -----

  /** What has been read so far, continued by a read of what is left, is the whole read. */
  ghost predicate Continues(all: ReadResult, data: seq<byte>, st: State, left: nat) {
    var rest := Read(st, left);
    all == ReadResult(rest.st, data + rest.data, rest.ending)
  }

  lemma {:induction false} ContinuesFirst(st: State, n: nat)
    ensures Continues(Read(st, n), [], st, n)
  {
    var data := Read(st, n).data;
    assert [] + data == data;
  }

  lemma {:induction false} ContinuesLast(all: ReadResult, data: seq<byte>, st: State)
    requires Continues(all, data, st, 0) && !st.finished
    ensures all == ReadResult(st, data, Filled)
  {
    assert data + [] == data;
  }

  lemma {:induction false} ContinuesStep(all: ReadResult, data: seq<byte>, st: State, left: nat)
    requires Continues(all, data, st, left) && !st.finished && left > 0
    ensures var c := ReadChunk(st, left);
      if c.ending.Some? then all == ReadResult(c.st, data + c.data, c.ending.value)
      else
        && |c.data| <= left && !c.st.finished && |c.st.sorter.queued| < |st.sorter.queued|
        && Continues(all, data + c.data, c.st, left - |c.data|)
  {
    var c := ReadChunk(st, left);
    if c.ending.None? {
      ChunkShrinks(st, left);
      Associate(data, c.data, Rest(st, left).data);
    }
  }

  class Stream {
    const frameQueue: S.Sorter
    var readOffset: nat
    var finishedReading: bool

    ghost function Contents(): State
      reads this, frameQueue
    {
      State(frameQueue.Contents(), readOffset, finishedReading)
    }

    constructor ()
      ensures Contents() == Init() && fresh(frameQueue)
    {
      frameQueue := new S.Sorter();
      readOffset, finishedReading := 0, false;
    }

    method AddStreamFrame(f: StreamFrame) returns (ok: bool)
      requires S.GapsFrom(-1, frameQueue.Contents().gaps) && f.End() <= MAX_U64
      modifies frameQueue
      ensures (Contents(), ok) == AddFrame(old(Contents()), f)
    {
      var r := frameQueue.Push(f);
      ok := r == S.Accepted || r == S.Duplicate;
    }

    method TakeChunk(n: nat) returns (data: seq<byte>, ending: Option<Ending>)
      modifies this, frameQueue
      ensures var c := ReadChunk(old(Contents()), n); Contents() == c.st && data == c.data && ending == c.ending
    {
      var head := frameQueue.Head();
      if head.None? {
        return [], Some(Waiting);
      }
      var f := head.value;
      var readPosInFrame := readOffset - f.offset;
      if f.offset != frameQueue.readPosition || readPosInFrame < 0 || readPosInFrame > |f.data| {
        return [], Some(BadPosition);
      }
      var m := Min(n, |f.data| - readPosInFrame);
      data := f.data[readPosInFrame..readPosInFrame + m];
      readOffset := readOffset + m;
      if readPosInFrame + m < |f.data| {
        return data, Some(Filled);
      }
      var popped := frameQueue.Pop();
      if f.fin {
        finishedReading := true;
        return data, Some(EndOfStream);
      }
      ending := None;
    }

    method ReadBytes(n: nat) returns (data: seq<byte>, ending: Ending)
      modifies this, frameQueue
      ensures var r := Read(old(Contents()), n); Contents() == r.st && data == r.data && ending == r.ending
    {
      data := [];
      if finishedReading {
        return data, EndOfStream;
      }
      ghost var all := Read(Contents(), n);
      ContinuesFirst(Contents(), n);
      var left: nat := n;
      while left > 0
        invariant !finishedReading && Continues(all, data, Contents(), left)
        decreases |frameQueue.queued|
      {
        ContinuesStep(all, data, Contents(), left);
        var chunk, end := TakeChunk(left);
        data := data + chunk;
        if end.Some? {
          return data, end.value;
        }
        left := left - |chunk|;
      }
      ContinuesLast(all, data, Contents());
      ending := Filled;
    }
  }
}
