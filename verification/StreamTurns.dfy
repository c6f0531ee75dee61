/**
  The framer asks the streams in the order of the round robin (quic-go/stream_framer.go, quic-go/streams_map.go),
  so that over several packets no stream with data is passed over.
 */
module StreamTurns {
  import opened Basics
  import opened IdLists
  import F = StreamFramer
  import FC = FlowControlManager
  import M = StreamsMap

  function Always(): nat -> bool {
    (x: nat) => true
  }

  function Until(stop: nat): nat -> bool {
    (x: nat) => x != stop
  }

  /** The order in which streams are asked, if no one stops the iteration. */
  function Order(st: M.State): seq<nat> {
    M.Iterated(st, Always()).1
  }

  /** The streams that the framer asks until one of them finds no space. */
  function Asked(
    framer: F.State, order: seq<nat>, used: nat, maxBytes: nat, negotiated: FC.Negotiated): (asked: seq<nat>)
    ensures asked <= order && (order != [] ==> asked != [])
    decreases |order|
  {
    if order == [] then []
    else
      var v := F.VisitStream(framer, order[0], used, maxBytes, negotiated);
      var used' := used + if v.frame.None? then 0 else F.Length(v.frame.value);
      [order[0]] + if v.goOn then Asked(v.st, order[1..], used', maxBytes, negotiated) else []
  }

  /** Later streams are not touched: the walk is the walk over the streams asked. */
  lemma {:induction false} WalkEndsThere(
    framer: F.State, order: seq<nat>, used: nat, maxBytes: nat, negotiated: FC.Negotiated)
    ensures F.WalkStreams(framer, order, used, maxBytes, negotiated)
      == F.WalkStreams(framer, Asked(framer, order, used, maxBytes, negotiated), used, maxBytes, negotiated)
    decreases |order|
  {
    if order != [] {
      var v := F.VisitStream(framer, order[0], used, maxBytes, negotiated);
      var used' := used + if v.frame.None? then 0 else F.Length(v.frame.value);
      var asked := Asked(framer, order, used, maxBytes, negotiated);
      assert asked[0] == order[0];
      if v.goOn {
        WalkEndsThere(v.st, order[1..], used', maxBytes, negotiated);
        assert asked[1..] == Asked(v.st, order[1..], used', maxBytes, negotiated);
      }
    }
  }

  // ----- The iteration that the framer makes -----

  lemma {:induction false} RingDistinct(start: nat, i: nat, j: nat, n: nat)
    requires i < j < n
    ensures M.RingIndex(start, i, n) != M.RingIndex(start, j, n)
  {
    if M.RingIndex(start, i, n) == M.RingIndex(start, j, n) {
      var a, b := (i + start) / n, (j + start) / n;
      assert (j - i) == b * n - a * n;
      if a < b {
        M.MulGap(a, b, n);
      }
    }
  }

  lemma {:induction false} VisitedLater(open: seq<nat>, start: nat, i: nat, goOn: nat -> bool, id: nat)
    requires id in M.Visited(open, start, i, goOn)
    ensures exists j :: i <= j < |open| && open[M.RingIndex(start, j, |open|)] == id
    decreases |open| - i
  {
    var first := open[M.RingIndex(start, i, |open|)];
    if first != id {
      VisitedLater(open, start, i + 1, goOn, id);
    }
  }

  lemma {:induction false} At(ids: seq<nat>, i: nat, j: nat)
    requires NoDuplicates(ids) && i < |ids| && j < |ids| && i != j
    ensures ids[i] != ids[j]
  {
    if i > 0 && j > 0 {
      At(ids[1..], i - 1, j - 1);
    }
  }

  lemma {:induction false} NotVisitedAgain(open: seq<nat>, start: nat, i: nat, goOn: nat -> bool)
    requires NoDuplicates(open) && i < |open|
    ensures open[M.RingIndex(start, i, |open|)] !in M.Visited(open, start, i + 1, goOn)
  {
    var id := open[M.RingIndex(start, i, |open|)];
    if id in M.Visited(open, start, i + 1, goOn) {
      VisitedLater(open, start, i + 1, goOn, id);
      var j :| i + 1 <= j < |open| && open[M.RingIndex(start, j, |open|)] == id;
      RingDistinct(start, i, j, |open|);
      At(open, M.RingIndex(start, i, |open|), M.RingIndex(start, j, |open|));
    }
  }

  lemma {:induction false} VisitedDistinct(open: seq<nat>, start: nat, i: nat, goOn: nat -> bool)
    requires NoDuplicates(open)
    ensures NoDuplicates(M.Visited(open, start, i, goOn))
    decreases |open| - i
  {
    if i < |open| {
      var id, rest := open[M.RingIndex(start, i, |open|)], M.Visited(open, start, i + 1, goOn);
      VisitedDistinct(open, start, i + 1, goOn);
      NotVisitedAgain(open, start, i, goOn);
      assert ([id] + rest)[1..] == rest && [id][1..] == [] && [id] + [] == [id];
    }
  }

  /** Stopping at a stream cuts the iteration off behind it. */
  lemma {:induction false} VisitedCut(open: seq<nat>, start: nat, i: nat, k: nat)
    requires var all := M.Visited(open, start, i, Always()); NoDuplicates(all) && k < |all|
    ensures var all := M.Visited(open, start, i, Always());
      M.Visited(open, start, i, Until(all[k])) == all[..k + 1]
    decreases |open| - i
  {
    var all := M.Visited(open, start, i, Always());
    var id, rest := open[M.RingIndex(start, i, |open|)], M.Visited(open, start, i + 1, Always());
    if M.Priority(id) {
      VisitedCut(open, start, i + 1, k);
    } else {
      assert all == [id] + rest && all[1..] == rest;
      if k > 0 {
        VisitedCut(open, start, i + 1, k - 1);
        assert all[..k + 1] == [id] + rest[..k];
      }
    }
  }

  /** The callback as which the framer acts on the iteration: it stops at the last stream asked. */
  function Callback(asked: seq<nat>, order: seq<nat>): nat -> bool {
    if asked == [] || asked == order then Always() else Until(asked[|asked| - 1])
  }

  lemma {:induction false} NotPriority(open: seq<nat>, start: nat, i: nat, goOn: nat -> bool, k: nat)
    requires k < |M.Visited(open, start, i, goOn)|
    ensures !M.Priority(M.Visited(open, start, i, goOn)[k])
    decreases |open| - i
  {
    var id := open[M.RingIndex(start, i, |open|)];
    if M.Priority(id) {
      NotPriority(open, start, i + 1, goOn, k);
    } else if k > 0 {
      NotPriority(open, start, i + 1, goOn, k - 1);
    }
  }

  /** Stopping within the ordinary streams. */
  lemma {:induction false} CutOrdinary(st: M.State, k: nat)
    requires NoDuplicates(st.open) && st.open != []
    requires k < |M.Visited(st.open, st.roundRobin, 0, Always())|
    ensures var first, all := M.PriorityVisited(st.streams, Always()), M.Visited(st.open, st.roundRobin, 0, Always());
      M.Iterated(st, Until(all[k])).1 == first + all[..k + 1]
  {
    var all := M.Visited(st.open, st.roundRobin, 0, Always());
    VisitedDistinct(st.open, st.roundRobin, 0, Always());
    VisitedCut(st.open, st.roundRobin, 0, k);
    NotPriority(st.open, st.roundRobin, 0, Always(), k);
  }

  /** The streams that the framer asks are those that one iteration with its callback visits. */
  lemma {:induction false} AskedIsIteration(st: M.State, asked: seq<nat>)
    requires NoDuplicates(st.open) && asked <= Order(st) && (Order(st) != [] ==> asked != [])
    ensures M.Iterated(st, Callback(asked, Order(st))).1 == asked
  {
    if asked != [] && asked != Order(st) {
      var first := M.PriorityVisited(st.streams, Always());
      if |asked| > |first| {
        var all := M.Visited(st.open, st.roundRobin, 0, Always());
        var k := |asked| - |first| - 1;
        assert asked[|asked| - 1] == all[k];
        CutOrdinary(st, k);
        assert asked == first + all[..k + 1];
      }
    }
  }

  // ----- Several packets -----

  /** What the framer finds when it fills a packet: its own state, the space and the agreed windows. */
  datatype Packet = Packet(framer: F.State, space: nat, negotiated: FC.Negotiated)

  function AskedFor(st: M.State, p: Packet): seq<nat> {
    Asked(p.framer, Order(st), 0, p.space, p.negotiated)
  }

  function CallbackFor(st: M.State, p: Packet): nat -> bool {
    Callback(AskedFor(st, p), Order(st))
  }

  /** The state of the streams' map and the callbacks, packet by packet. */
  function Callbacks(st: M.State, packets: seq<Packet>): seq<nat -> bool>
    decreases |packets|
  {
    if packets == [] then []
    else
      var goOn := CallbackFor(st, packets[0]);
      [goOn] + Callbacks(M.Iterated(st, goOn).0, packets[1..])
  }

  /** All streams asked, over all packets. */
  function AskedInAll(st: M.State, packets: seq<Packet>): seq<nat>
    decreases |packets|
  {
    if packets == [] then []
    else AskedFor(st, packets[0]) + AskedInAll(M.Iterated(st, CallbackFor(st, packets[0])).0, packets[1..])
  }

  lemma {:induction false} AskedAreIterations(st: M.State, packets: seq<Packet>)
    requires NoDuplicates(st.open)
    ensures AskedInAll(st, packets) == M.Iterations(st, Callbacks(st, packets))
    ensures |Callbacks(st, packets)| == |packets|
    decreases |packets|
  {
    if packets != [] {
      var goOn := CallbackFor(st, packets[0]);
      var st' := M.Iterated(st, goOn).0;
      AskedIsIteration(st, AskedFor(st, packets[0]));
      AskedAreIterations(st', packets[1..]);
      assert ([goOn] + Callbacks(st', packets[1..]))[1..] == Callbacks(st', packets[1..]);
    }
  }

  /**
    Whatever the streams have to send, whatever the windows and packet sizes: among as many packets as streams are
    open, each with space left behind the crypto and the header stream, every other stream is asked for data.
   */
  lemma {:induction false} EveryStreamIsAsked(st: M.State, packets: seq<Packet>, id: nat)
    requires NoDuplicates(st.open) && id in st.open && !M.Priority(id) && |packets| >= |st.open|
    requires forall goOn :: goOn in Callbacks(st, packets) ==> !M.StopsEarly(st.streams, goOn)
    ensures id in AskedInAll(st, packets)
  {
    AskedAreIterations(st, packets);
    M.EveryStreamHasItsTurn(st, Callbacks(st, packets), id);
  }
}
