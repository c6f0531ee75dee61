/**
  The open streams of a session (quic-go/streams_map.go): which stream IDs exist, which may still be opened,
  and in which order streams are asked for data. Stream IDs and counters are unbounded.
 */
module StreamsMap {
  import opened Basics
  import opened IdLists

  const MAX_NEW_STREAM_ID_DELTA: nat := 400

  datatype Perspective = Client | Server

  datatype State = State(
    perspective: Perspective,
    streams: set<nat>,
    open: seq<nat>,
    roundRobin: nat,
    nextStream: nat,
    highestByPeer: nat,
    outgoing: int,
    incoming: int,
    closed: bool
  )

  datatype Outcome =
    | Found | Opened | AlreadyClosed | InvalidStreamID | TooManyOpenStreams | SessionClosed | NoSuchStream

  /** A new state, what the caller is told, and the IDs of the streams created on the way. */
  datatype Effect = Effect(st: State, outcome: Outcome, created: seq<nat>)

  function Init(perspective: Perspective): State {
    State(perspective, {}, [], 0, if perspective == Client then 1 else 2, 0, 0, 0, false)
  }

  // ----- Opening and removing -----

  function Put(st: State, id: nat): State {
    if id in st.streams then st else st.(streams := st.streams + {id}, open := st.open + [id])
  }

  function OpenRemote(st: State, id: nat, maxIncoming: nat): (State, Outcome) {
    if st.incoming >= maxIncoming then (st, TooManyOpenStreams)
    else if id + MAX_NEW_STREAM_ID_DELTA < st.highestByPeer then (st, InvalidStreamID)
    else
      var counted :=
        if st.perspective == Server then st.(incoming := st.incoming + 1) else st.(outgoing := st.outgoing + 1);
      (Put(counted.(highestByPeer := Max(st.highestByPeer, id)), id), Opened)
  }

  /** Open every second stream from `sid` up to `id`. */
  function OpenUpTo(st: State, sid: nat, id: nat, maxIncoming: nat): (e: Effect)
    ensures e.outcome != Found
    decreases id + 2 - sid
  {
    if sid > id then Effect(st, Opened, [])
    else
      var (st', outcome) := OpenRemote(st, sid, maxIncoming);
      if outcome != Opened then Effect(st', outcome, [])
      else
        var rest := OpenUpTo(st', sid + 2, id, maxIncoming);
        rest.(created := [sid] + rest.created)
  }

  /** Streams that the peer may open: odd ones from a client, even ones from a server. */
  predicate FromPeer(perspective: Perspective, id: nat) {
    id % 2 == if perspective == Server then 1 else 0
  }

  function FirstUnopened(st: State): nat {
    if st.highestByPeer == 0 && st.perspective == Server then 1 else st.highestByPeer + 2
  }

  function GetOrOpen(st: State, id: nat, maxIncoming: nat): Effect {
    if id in st.streams then Effect(st, Found, [])
    else if !FromPeer(st.perspective, id) then
      Effect(st, if id <= st.nextStream then AlreadyClosed else InvalidStreamID, [])
    else if id <= st.highestByPeer then Effect(st, AlreadyClosed, [])
    else OpenUpTo(st, FirstUnopened(st), id, maxIncoming)
  }

  function Open(st: State, maxOutgoing: nat): Effect {
    if st.closed then Effect(st, SessionClosed, [])
    else if st.outgoing >= maxOutgoing then Effect(st, TooManyOpenStreams, [])
    else
      var counted :=
        if st.perspective == Server then st.(outgoing := st.outgoing + 1) else st.(incoming := st.incoming + 1);
      Effect(Put(counted.(nextStream := st.nextStream + 2), st.nextStream), Opened, [st.nextStream])
  }

  /** The position of the first occurrence, or the length of the list. */
  function Position(ids: seq<nat>, id: nat): nat {
    if ids == [] || ids[0] == id then 0 else 1 + Position(ids[1..], id)
  }

  function Remove(st: State, id: nat): Effect {
    if id !in st.streams then Effect(st, NoSuchStream, [])
    else
      var counted := if id % 2 == 0 then st.(outgoing := st.outgoing - 1) else st.(incoming := st.incoming - 1);
      Effect(counted.(
        streams := st.streams - {id},
        open := Without(st.open, id),
        roundRobin := AdjustedIndex(st.open, id, st.roundRobin)), Found, [])
  }

  /** Streams behind the round robin index move up by one place. */
  function AdjustedIndex(open: seq<nat>, id: nat, index: nat): nat {
    if Position(open, id) < |open| && Position(open, id) < index then index - 1 else index
  }

  // ----- Lists of IDs -----

  function CountParity(ids: seq<nat>, parity: nat): nat {
    if ids == [] then 0 else (if ids[0] % 2 == parity then 1 else 0) + CountParity(ids[1..], parity)
  }

  lemma {:induction false} AppendNew(ids: seq<nat>, id: nat, parity: nat)
    ensures CountParity(ids + [id], parity) == CountParity(ids, parity) + if id % 2 == parity then 1 else 0
    ensures NoDuplicates(ids) && id !in ids ==> NoDuplicates(ids + [id])
  {
    if ids != [] {
      AppendNew(ids[1..], id, parity);
      assert (ids + [id])[1..] == ids[1..] + [id];
    } else {
      assert ([id])[1..] == [];
      assert ids + [id] == [id];
    }
  }

  lemma {:induction false} WithoutParity(ids: seq<nat>, id: nat, parity: nat)
    requires id in ids
    ensures CountParity(ids, parity) == CountParity(Without(ids, id), parity) + if id % 2 == parity then 1 else 0
  {
    if ids[0] != id {
      WithoutParity(ids[1..], id, parity);
      var rest := Without(ids[1..], id);
      assert ([ids[0]] + rest)[1..] == rest;
    }
  }

  // ----- The invariant over whole runs -----

  /** `created` lists every stream ever created, on either side. */
  ghost predicate Valid(st: State, created: seq<nat>) {
    && NoDuplicates(st.open)
    && (forall id :: id in st.open <==> id in st.streams)
    && st.incoming == CountParity(st.open, 1)
    && st.outgoing == CountParity(st.open, 0)
    && NoDuplicates(created)
    && (forall id :: id in st.streams ==> id in created)
    && (forall id :: id in created ==> IdBound(st, id))
    && !FromPeer(st.perspective, st.nextStream)
    && (st.highestByPeer == 0 || FromPeer(st.perspective, st.highestByPeer))
  }

  /** IDs below the two frontiers are used up. */
  ghost predicate IdBound(st: State, id: nat) {
    1 <= id && if FromPeer(st.perspective, id) then id <= st.highestByPeer else id < st.nextStream
  }

  lemma {:induction false} PutKeeps(st: State, created: seq<nat>, id: nat, st': State)
    requires Valid(st, created) && id !in created && 1 <= id
    requires st' == Put(st.(
      highestByPeer := st'.highestByPeer, nextStream := st'.nextStream,
      incoming := st.incoming + (if id % 2 == 1 then 1 else 0),
      outgoing := st.outgoing + (if id % 2 == 0 then 1 else 0)), id)
    requires st.highestByPeer <= st'.highestByPeer && st.nextStream <= st'.nextStream
    requires !FromPeer(st.perspective, st'.nextStream)
    requires st'.highestByPeer == 0 || FromPeer(st.perspective, st'.highestByPeer)
    requires IdBound(st', id)
    ensures Valid(st', created + [id])
  {
    assert id !in st.streams;
    AppendNew(st.open, id, 0);
    AppendNew(st.open, id, 1);
    AppendNew(created, id, 0);
    forall x | x in created + [id] ensures IdBound(st', x) {
      assert x in created ==> IdBound(st, x);
    }
  }

  lemma {:induction false} OpenRemoteKeeps(st: State, created: seq<nat>, id: nat, maxIncoming: nat)
    requires Valid(st, created) && FromPeer(st.perspective, id) && st.highestByPeer < id
    ensures var (st', outcome) := OpenRemote(st, id, maxIncoming);
      if outcome == Opened
      then Valid(st', created + [id]) && st'.highestByPeer == id && st'.perspective == st.perspective
      else st' == st
  {
    var (st', outcome) := OpenRemote(st, id, maxIncoming);
    if outcome == Opened {
      assert !IdBound(st, id);
      PutKeeps(st, created, id, st');
    }
  }

  lemma {:induction false} OpenUpToKeeps(st: State, created: seq<nat>, sid: nat, id: nat, maxIncoming: nat)
    requires Valid(st, created) && FromPeer(st.perspective, sid) && st.highestByPeer < sid
    ensures var e := OpenUpTo(st, sid, id, maxIncoming); Valid(e.st, created + e.created)
    decreases id + 2 - sid
  {
    if sid > id {
      assert created + [] == created;
    } else {
      OpenRemoteKeeps(st, created, sid, maxIncoming);
      var (st', outcome) := OpenRemote(st, sid, maxIncoming);
      if outcome == Opened {
        OpenUpToKeeps(st', created + [sid], sid + 2, id, maxIncoming);
        Associate(created, [sid], OpenUpTo(st', sid + 2, id, maxIncoming).created);
      } else {
        assert created + [] == created;
      }
    }
  }

  /** The streams from `sid` on are all opened: the last one is `id` if it has the same parity. */
  lemma {:induction false} OpenUpToReaches(st: State, sid: nat, id: nat, maxIncoming: nat)
    requires sid % 2 == id % 2 && OpenUpTo(st, sid, id, maxIncoming).outcome == Opened
    ensures st.streams <= OpenUpTo(st, sid, id, maxIncoming).st.streams
    ensures sid <= id ==> id in OpenUpTo(st, sid, id, maxIncoming).st.streams
    decreases id + 2 - sid
  {
    if sid <= id {
      OpenUpToReaches(OpenRemote(st, sid, maxIncoming).0, sid + 2, id, maxIncoming);
    }
  }

  /**
    Asking for a stream creates only streams that never existed, and afterwards the stream exists unless
    it was closed before, the number is not the peer's to use, or there are too many streams.
   */
  lemma {:induction false} GetOrOpenKeeps(st: State, created: seq<nat>, id: nat, maxIncoming: nat)
    requires Valid(st, created)
    ensures var e := GetOrOpen(st, id, maxIncoming);
      && Valid(e.st, created + e.created)
      && (e.outcome == Found || e.outcome == Opened ==> id in e.st.streams)
      && (e.outcome == Opened ==> id !in created)
      && (id in created && id !in st.streams ==> e == Effect(st, AlreadyClosed, []))
  {
    assert created + [] == created;
    assert id in created ==> IdBound(st, id);
    var e := GetOrOpen(st, id, maxIncoming);
    if id !in st.streams && FromPeer(st.perspective, id) && id > st.highestByPeer {
      OpenUpToKeeps(st, created, FirstUnopened(st), id, maxIncoming);
      if e.outcome == Opened {
        OpenUpToReaches(st, FirstUnopened(st), id, maxIncoming);
      }
    }
  }

  lemma {:induction false} OpenKeeps(st: State, created: seq<nat>, maxOutgoing: nat)
    requires Valid(st, created) && 1 <= st.nextStream
    ensures var e := Open(st, maxOutgoing);
      Valid(e.st, created + e.created) && (e.outcome == Opened ==> st.nextStream in e.st.streams)
  {
    var e := Open(st, maxOutgoing);
    assert created + [] == created;
    if e.outcome == Opened {
      assert !IdBound(st, st.nextStream);
      PutKeeps(st, created, st.nextStream, e.st);
    }
  }

  lemma {:induction false} RemoveKeeps(st: State, created: seq<nat>, id: nat)
    requires Valid(st, created)
    ensures Valid(Remove(st, id).st, created)
    ensures Remove(st, id).st.incoming >= 0 && Remove(st, id).st.outgoing >= 0
  {
    if id in st.streams {
      WithoutEffect(st.open, id);
      WithoutParity(st.open, id, 0);
      WithoutParity(st.open, id, 1);
    }
  }

  // ----- Whole runs -----

  datatype Call =
    | CallGetOrOpen(id: nat, maxIncoming: nat)
    | CallOpen(maxOutgoing: nat)
    | CallRemove(id: nat)
    | CallClose

  function Apply(st: State, call: Call): Effect {
    match call
    case CallGetOrOpen(id, maxIncoming) => GetOrOpen(st, id, maxIncoming)
    case CallOpen(maxOutgoing) => Open(st, maxOutgoing)
    case CallRemove(id) => Remove(st, id)
    case CallClose => Effect(st.(closed := true), SessionClosed, [])
  }

  function Run(st: State, created: seq<nat>, calls: seq<Call>): (State, seq<nat>)
    decreases |calls|
  {
    if calls == [] then (st, created)
    else
      var e := Apply(st, calls[0]);
      Run(e.st, created + e.created, calls[1..])
  }

  lemma {:induction false} RemovalKeeps(st: State, created: seq<nat>, id: nat)
    requires Valid(st, created)
    ensures var e := Apply(st, CallRemove(id)); Valid(e.st, created + e.created) && e.st.nextStream == st.nextStream
  {
    RemoveKeeps(st, created, id);
    assert created + [] == created;
  }

  lemma {:induction false} CloseKeeps(st: State, created: seq<nat>)
    requires Valid(st, created)
    ensures var e := Apply(st, CallClose); Valid(e.st, created + e.created)
  {
    assert created + [] == created;
  }

  lemma {:induction false} ApplyKeeps(st: State, created: seq<nat>, call: Call)
    requires Valid(st, created) && 1 <= st.nextStream
    ensures var e := Apply(st, call); Valid(e.st, created + e.created) && 1 <= e.st.nextStream
  {
    match call
    case CallGetOrOpen(id, maxIncoming) =>
      GetOrOpenKeeps(st, created, id, maxIncoming);
      NextStreamKept(st, FirstUnopened(st), id, maxIncoming);
    case CallOpen(maxOutgoing) => OpenKeeps(st, created, maxOutgoing);
    case CallRemove(id) => RemovalKeeps(st, created, id);
    case CallClose => CloseKeeps(st, created);
  }

  lemma {:induction false} NextStreamKept(st: State, sid: nat, id: nat, maxIncoming: nat)
    ensures OpenUpTo(st, sid, id, maxIncoming).st.nextStream == st.nextStream
    decreases id + 2 - sid
  {
    if sid <= id {
      NextStreamKept(OpenRemote(st, sid, maxIncoming).0, sid + 2, id, maxIncoming);
    }
  }

  lemma {:induction false} RunKeeps(st: State, created: seq<nat>, calls: seq<Call>)
    requires Valid(st, created) && 1 <= st.nextStream
    ensures var (st', created') := Run(st, created, calls); Valid(st', created')
    decreases |calls|
  {
    if calls != [] {
      ApplyKeeps(st, created, calls[0]);
      var e := Apply(st, calls[0]);
      RunKeeps(e.st, created + e.created, calls[1..]);
    }
  }

  /**
    Over every run, from either side: no stream is created twice, the list of open streams has no duplicates
    and holds exactly the open streams, and the counters are the numbers of open odd and even streams.
   */
  lemma {:induction false} StreamIdentity(perspective: Perspective, calls: seq<Call>)
    ensures var (st, created) := Run(Init(perspective), [], calls);
      && NoDuplicates(created)
      && NoDuplicates(st.open) && (forall id :: id in st.open <==> id in st.streams)
      && (forall id :: id in st.streams ==> id in created)
      && st.incoming == CountParity(st.open, 1) && st.outgoing == CountParity(st.open, 0)
  {
    RunKeeps(Init(perspective), [], calls);
  }

  /** Over every run, a stream that was created and is no longer open is never opened again. */
  lemma {:induction false} ClosedStaysClosed(perspective: Perspective, calls: seq<Call>, id: nat, maxIncoming: nat)
    requires var (st, created) := Run(Init(perspective), [], calls); id in created && id !in st.streams
    ensures var st := Run(Init(perspective), [], calls).0;
      GetOrOpen(st, id, maxIncoming) == Effect(st, AlreadyClosed, [])
  {
    RunKeeps(Init(perspective), [], calls);
    var (st, created) := Run(Init(perspective), [], calls);
    GetOrOpenKeeps(st, created, id, maxIncoming);
  }

  // ----- Round robin -----

  predicate Priority(id: nat) {
    id == 1 || id == 3
  }

  /** The position that lies `i` steps after `start` on the ring of open streams. */
  function RingIndex(start: nat, i: nat, n: nat): (k: nat)
    requires n > 0
    ensures k < n
  {
    (i + start) % n
  }

  /**
    The ordinary streams visited from step `i` on; the callback says for each whether to go on. Crypto and
    header stream are passed over, as they have had their turn.
   */
  function Visited(open: seq<nat>, start: nat, i: nat, goOn: nat -> bool): seq<nat>
    decreases |open| - i
  {
    if i >= |open| then []
    else
      var id := open[RingIndex(start, i, |open|)];
      if Priority(id) then Visited(open, start, i + 1, goOn)
      else [id] + if goOn(id) then Visited(open, start, i + 1, goOn) else []
  }

  /** The crypto and the header stream, if they are open and the callback does not stop before. */
  function PriorityVisited(streams: set<nat>, goOn: nat -> bool): seq<nat> {
    if 1 in streams && !goOn(1) then [1]
    else (if 1 in streams then [1] else []) + (if 3 in streams then [3] else [])
  }

  predicate StopsEarly(streams: set<nat>, goOn: nat -> bool) {
    (1 in streams && !goOn(1)) || (3 in streams && !goOn(3))
  }

  /** One iteration: the streams visited in order, and the index from which the next one starts. */
  function Iterated(st: State, goOn: nat -> bool): (State, seq<nat>) {
    var first := PriorityVisited(st.streams, goOn);
    if StopsEarly(st.streams, goOn) || st.open == [] then (st, first)
    else
      var visited := Visited(st.open, st.roundRobin, 0, goOn);
      (Advanced(st, |visited|), first + visited)
  }

  function Advanced(st: State, steps: nat): State
    requires st.open != []
  {
    st.(roundRobin := IndexAfter(st.roundRobin, steps, |st.open|))
  }

  /** The round robin index after a number of visits. */
  function IndexAfter(start: nat, visits: nat, n: nat): nat
    requires n > 0
  {
    if visits == 0 then start else (start + visits) % n
  }

  /** The index after one more visit. */
  function Bump(index: nat, n: nat): nat
    requires n > 0
  {
    (index + 1) % n
  }

  /** Everything visited by successive iterations over an unchanged set of streams. */
  function Iterations(st: State, callbacks: seq<nat -> bool>): seq<nat>
    decreases |callbacks|
  {
    if callbacks == [] then []
    else
      var (st', visited) := Iterated(st, callbacks[0]);
      visited + Iterations(st', callbacks[1..])
  }

  /** An iteration visits every ordinary stream among the positions that the round robin index moves over. */
  lemma {:induction false} VisitedCovers(open: seq<nat>, start: nat, i: nat, goOn: nat -> bool, d: nat)
    requires i <= d < |open|
    requires !Priority(open[RingIndex(start, d, |open|)])
    requires d - i < |Visited(open, start, i, goOn)|
    ensures open[RingIndex(start, d, |open|)] in Visited(open, start, i, goOn)
    decreases |open| - i
  {
    if i < d {
      VisitedCovers(open, start, i + 1, goOn, d);
    }
  }

  /** An iteration moves on by at least one stream if there is an ordinary one. */
  lemma {:induction false} VisitedSome(open: seq<nat>, start: nat, i: nat, goOn: nat -> bool, d: nat)
    requires i <= d < |open| && !Priority(open[RingIndex(start, d, |open|)])
    ensures Visited(open, start, i, goOn) != []
    decreases |open| - i
  {
    if i < d {
      VisitedSome(open, start, i + 1, goOn, d);
    }
  }

  lemma {:induction false} ModShift(z: nat, k: nat, n: nat)
    requires n > 0
    ensures (z + k * n) % n == z % n
  {
    if k > 0 {
      ModShift(z, k - 1, n);
      assert z + k * n == z + (k - 1) * n + n;
      ModStep(z + (k - 1) * n, n);
    }
  }

  lemma {:induction false} ModStep(z: nat, n: nat)
    requires n > 0
    ensures (z + n) % n == z % n
  {
    var q, r := z / n, z % n;
    assert z + n == (q + 1) * n + r;
    ModUnique(z + n, q + 1, r, n);
  }

  lemma {:induction false} MulGap(a: nat, b: nat, n: nat)
    requires a < b
    ensures a * n + n <= b * n
  {
    var c := b - a - 1;
    assert c * n >= 0;
    assert b * n == (a + 1 + c) * n == a * n + n + c * n;
  }

  lemma {:induction false} Squeeze(q: nat, r: nat, q': nat, r': nat, n: nat)
    requires r < n && r' < n && q * n + r == q' * n + r'
    ensures r == r'
  {
    if q < q' {
      MulGap(q, q', n);
    } else if q' < q {
      MulGap(q', q, n);
    }
  }

  lemma {:induction false} ModUnique(z: nat, q: nat, r: nat, n: nat)
    requires n > 0 && z == q * n + r && r < n
    ensures z % n == r
  {
    Squeeze(q, r, z / n, z % n, n);
  }

  /** The distance to a position shrinks by what the index moves forward. */
  lemma {:induction false} DistanceShrinks(start: nat, d: nat, v: nat, n: nat)
    requires n > 0 && v <= d
    ensures RingIndex((start + v) % n, d - v, n) == RingIndex(start, d, n)
  {
    var y := start + v;
    assert y == (y / n) * n + y % n;
    ModShift(d - v + y % n, y / n, n);
    assert d - v + y % n + (y / n) * n == d + start;
  }

  /**
    No starvation: over as many iterations as it takes the index to come round, at most one per open
    stream, an ordinary stream is visited however early the callback stops on ordinary streams.
   */
  lemma {:induction false} NeverStarves(st: State, callbacks: seq<nat -> bool>, d: nat)
    requires d < |st.open| && d < |callbacks|
    requires !Priority(st.open[RingIndex(st.roundRobin, d, |st.open|)])
    requires forall goOn :: goOn in callbacks ==> !StopsEarly(st.streams, goOn)
    ensures st.open[RingIndex(st.roundRobin, d, |st.open|)] in Iterations(st, callbacks)
    decreases |callbacks|
  {
    var goOn := callbacks[0];
    var visited := Visited(st.open, st.roundRobin, 0, goOn);
    VisitedSome(st.open, st.roundRobin, 0, goOn, d);
    if d < |visited| {
      VisitedCovers(st.open, st.roundRobin, 0, goOn, d);
    } else {
      DistanceShrinks(st.roundRobin, d, |visited|, |st.open|);
      NeverStarves(Advanced(st, |visited|), callbacks[1..], d - |visited|);
    }
  }

  /** Hence in any n consecutive iterations over n unchanged streams every ordinary stream has its turn. */
  lemma {:induction false} EveryStreamHasItsTurn(st: State, callbacks: seq<nat -> bool>, id: nat)
    requires id in st.open && !Priority(id) && |callbacks| >= |st.open|
    requires forall goOn :: goOn in callbacks ==> !StopsEarly(st.streams, goOn)
    ensures id in Iterations(st, callbacks)
  {
    var t :| 0 <= t < |st.open| && st.open[t] == id;
    var d := Distance(st.roundRobin, t, |st.open|);
    NeverStarves(st, callbacks, d);
  }

  /** How many steps after the index a position lies. */
  ghost function Distance(start: nat, t: nat, n: nat): (d: nat)
    requires t < n
    ensures d < n && RingIndex(start, d, n) == t
  {
    var r := start % n;
    var d := if r <= t then t - r else t + n - r;
    DistanceRight(start, d, t, n);
    d
  }

  lemma {:induction false} DistanceRight(start: nat, d: nat, t: nat, n: nat)
    requires t < n
    requires d + start % n == t || d + start % n == t + n
    ensures RingIndex(start, d, n) == t
  {
    var q, r := start / n, start % n;
    assert start == q * n + r;
    if d + r == t {
      ModUnique(d + start, q, t, n);
    } else {
      assert (q + 1) * n == q * n + n;
      ModUnique(d + start, q + 1, t, n);
    }
  }

  // ----- The loops of the map -----

  /** Search the list of open streams; the length of the list means that the stream is not there. */
  method FindOpen(open: seq<nat>, id: nat) returns (i: nat)
    ensures i == Position(open, id) && i <= |open|
  {
    i := 0;
    while i < |open| && open[i] != id
      invariant i <= |open| && Position(open, id) == i + Position(open[i..], id)
    {
      assert open[i..][1..] == open[i + 1..];
      i := i + 1;
    }
  }

  lemma {:induction false} CutOut(open: seq<nat>, id: nat)
    ensures Position(open, id) <= |open|
    ensures Position(open, id) < |open|
      ==> Without(open, id) == open[..Position(open, id)] + open[Position(open, id) + 1..]
    ensures Position(open, id) == |open| ==> Without(open, id) == open
  {
    if open != [] && open[0] != id {
      CutOut(open[1..], id);
      var k := Position(open[1..], id);
      assert open == [open[0]] + open[1..];
      if k < |open[1..]| {
        assert [open[0]] + (open[1..][..k] + open[1..][k + 1..]) == open[..k + 1] + open[k + 2..];
      }
    }
  }

  method CutOpen(open: seq<nat>, id: nat, index: nat) returns (open': seq<nat>, index': nat)
    ensures open' == Without(open, id) && index' == AdjustedIndex(open, id, index)
  {
    open', index' := open, index;
    var i := FindOpen(open, id);
    CutOut(open, id);
    if i < |open| {
      open' := open[..i] + open[i + 1..];
      if i < index {
        index' := index - 1;
      }
    }
  }

  /** Crypto and header stream come first; the callback may end the iteration there. */
  method VisitPriority(streams: set<nat>, goOn: nat -> bool) returns (visited: seq<nat>, stop: bool)
    ensures visited == PriorityVisited(streams, goOn) && stop == StopsEarly(streams, goOn)
  {
    visited := [];
    if 1 in streams {
      visited := [1];
      if !goOn(1) {
        return visited, true;
      }
    }
    if 3 in streams {
      visited := visited + [3];
      if !goOn(3) {
        return visited, true;
      }
    }
    stop := false;
  }

  /** The ring walk, which advances the index by one for every ordinary stream it visits. */
  method VisitOrdinary(open: seq<nat>, start: nat, goOn: nat -> bool) returns (visited: seq<nat>, index: nat)
    requires open != []
    ensures visited == Visited(open, start, 0, goOn)
    ensures index == IndexAfter(start, |visited|, |open|)
  {
    visited, index := [], start;
    var i := 0;
    while i < |open|
      invariant i <= |open|
      invariant visited + Visited(open, start, i, goOn) == Visited(open, start, 0, goOn)
      invariant index == IndexAfter(start, |visited|, |open|)
    {
      var id := open[RingIndex(start, i, |open|)];
      VisitStep(visited, open, start, i, goOn);
      if !Priority(id) {
        NextIndex(start, |visited|, |open|);
        visited := visited + [id];
        index := Bump(index, |open|);
        if !goOn(id) {
          assert visited + [] == visited;
          return;
        }
      }
      i := i + 1;
    }
    assert visited + [] == visited;
  }

  lemma {:induction false} VisitStep(visited: seq<nat>, open: seq<nat>, start: nat, i: nat, goOn: nat -> bool)
    requires i < |open|
    ensures var id := open[RingIndex(start, i, |open|)];
      visited + Visited(open, start, i, goOn) ==
        if Priority(id) then visited + Visited(open, start, i + 1, goOn)
        else visited + [id] + if goOn(id) then Visited(open, start, i + 1, goOn) else []
  {
    var id := open[RingIndex(start, i, |open|)];
    if !Priority(id) {
      Associate(visited, [id], if goOn(id) then Visited(open, start, i + 1, goOn) else []);
    }
  }

  lemma {:induction false} NextIndex(start: nat, k: nat, n: nat)
    requires n > 0
    ensures Bump(IndexAfter(start, k, n), n) == IndexAfter(start, k + 1, n)
  {
    if k > 0 {
      var y := start + k;
      assert y == (y / n) * n + y % n;
      ModShift(y % n + 1, y / n, n);
    }
  }

  // ----- The map as an object -----

  class Streams {
    const perspective: Perspective
    var streams: set<nat>
    var openStreams: seq<nat>
    var roundRobinIndex: nat
    var nextStream: nat
    var highestStreamOpenedByPeer: nat
    var numOutgoingStreams: int
    var numIncomingStreams: int
    var closed: bool

    ghost function Contents(): State
      reads this
    {
      State(perspective, streams, openStreams, roundRobinIndex, nextStream, highestStreamOpenedByPeer,
        numOutgoingStreams, numIncomingStreams, closed)
    }

    constructor (perspective: Perspective)
      ensures Contents() == Init(perspective)
    {
      this.perspective := perspective;
      streams, openStreams, roundRobinIndex := {}, [], 0;
      nextStream := if perspective == Client then 1 else 2;
      highestStreamOpenedByPeer, numOutgoingStreams, numIncomingStreams, closed := 0, 0, 0, false;
    }

    method PutStream(id: nat)
      modifies this
      ensures Contents() == Put(old(Contents()), id)
    {
      if id !in streams {
        streams := streams + {id};
        openStreams := openStreams + [id];
      }
    }

    method OpenRemoteStream(id: nat, maxIncoming: nat) returns (r: Outcome)
      modifies this
      ensures (Contents(), r) == OpenRemote(old(Contents()), id, maxIncoming)
    {
      if numIncomingStreams >= maxIncoming {
        return TooManyOpenStreams;
      }
      if id + MAX_NEW_STREAM_ID_DELTA < highestStreamOpenedByPeer {
        return InvalidStreamID;
      }
      if perspective == Server {
        numIncomingStreams := numIncomingStreams + 1;
      } else {
        numOutgoingStreams := numOutgoingStreams + 1;
      }
      if id > highestStreamOpenedByPeer {
        highestStreamOpenedByPeer := id;
      }
      PutStream(id);
      r := Opened;
    }

    method GetOrOpenStream(id: nat, maxIncoming: nat) returns (r: Outcome)
      modifies this
      ensures var e := GetOrOpen(old(Contents()), id, maxIncoming); Contents() == e.st && r == e.outcome
    {
      if id in streams {
        return Found;
      }
      if id % 2 != (if perspective == Server then 1 else 0) {
        return if id <= nextStream then AlreadyClosed else InvalidStreamID;
      }
      if id <= highestStreamOpenedByPeer {
        return AlreadyClosed;
      }
      var sid := highestStreamOpenedByPeer + 2;
      if sid == 2 && perspective == Server {
        sid := 1;
      }
      r := OpenStreamsUpTo(sid, id, maxIncoming);
    }

    method OpenStreamsUpTo(first: nat, id: nat, maxIncoming: nat) returns (r: Outcome)
      modifies this
      ensures var e := OpenUpTo(old(Contents()), first, id, maxIncoming); Contents() == e.st && r == e.outcome
    {
      var sid := first;
      while sid <= id
        invariant OpenUpTo(Contents(), sid, id, maxIncoming).st == OpenUpTo(old(Contents()), first, id, maxIncoming).st
        invariant OpenUpTo(Contents(), sid, id, maxIncoming).outcome
          == OpenUpTo(old(Contents()), first, id, maxIncoming).outcome
        decreases id + 2 - sid
      {
        r := OpenRemoteStream(sid, maxIncoming);
        if r != Opened {
          return;
        }
        sid := sid + 2;
      }
      r := Opened;
    }

    method OpenStream(maxOutgoing: nat) returns (r: Outcome)
      modifies this
      ensures var e := Open(old(Contents()), maxOutgoing); Contents() == e.st && r == e.outcome
    {
      if closed {
        return SessionClosed;
      }
      var id := nextStream;
      if numOutgoingStreams >= maxOutgoing {
        return TooManyOpenStreams;
      }
      if perspective == Server {
        numOutgoingStreams := numOutgoingStreams + 1;
      } else {
        numIncomingStreams := numIncomingStreams + 1;
      }
      nextStream := nextStream + 2;
      PutStream(id);
      r := Opened;
    }

    method RemoveStream(id: nat) returns (r: Outcome)
      modifies this
      ensures var e := Remove(old(Contents()), id); Contents() == e.st && r == e.outcome
    {
      if id !in streams {
        return NoSuchStream;
      }
      if id % 2 == 0 {
        numOutgoingStreams := numOutgoingStreams - 1;
      } else {
        numIncomingStreams := numIncomingStreams - 1;
      }
      openStreams, roundRobinIndex := CutOpen(openStreams, id, roundRobinIndex);
      streams := streams - {id};
      r := Found;
    }

    method RoundRobinIterate(goOn: nat -> bool) returns (visited: seq<nat>)
      requires openStreams == [] <==> streams == {}
      modifies this
      ensures (Contents(), visited) == Iterated(old(Contents()), goOn)
    {
      var stop;
      visited, stop := VisitPriority(streams, goOn);
      if stop {
        return;
      }
      if streams != {} {
        var ordinary, index := VisitOrdinary(openStreams, roundRobinIndex, goOn);
        visited := visited + ordinary;
        roundRobinIndex := index;
      }
    }
  }
}
