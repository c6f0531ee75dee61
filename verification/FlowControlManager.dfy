/**
  Flow control of all streams and of the connection together
  (quic-go/internal/flowcontrol/flow_control_manager.go). The order in which the map of streams is walked is a
  parameter.
 */
module FlowControlManager {
  import opened Basics
  import opened IdLists
  import opened FlowController

  datatype State = State(streams: map<nat, Controller>, conn: Controller)

  datatype Outcome = Done | UnknownStream | TooMuchData | DataAfterTermination

  function InitialState(window: nat, maxIncrement: nat): State {
    State(map[], FlowController.Init(false, window, maxIncrement))
  }

  // ----- Operations on values -----

  function NewStream(st: State, id: nat, contributes: bool, window: nat, maxIncrement: nat): State {
    if id in st.streams then st
    else st.(streams := st.streams[id := FlowController.Init(contributes, window, maxIncrement)])
  }

  function RemoveStream(st: State, id: nat): State {
    st.(streams := st.streams - {id})
  }

  /** Bytes that arrived on a stream count for the connection as well. */
  function CountForConnection(st: State, c: Controller, increment: nat): (State, Outcome) {
    if !c.contributes then (st, Done)
    else
      var conn := st.conn.(highestReceived := st.conn.highestReceived + increment);
      (st.(conn := conn), if Violated(conn) then TooMuchData else Done)
  }

  function UpdateHighestReceived(st: State, id: nat, offset: nat): (State, Outcome) {
    if id !in st.streams then (st, UnknownStream)
    else
      var (c, increment) := UpdateHighest(st.streams[id], offset);
      var st' := st.(streams := st.streams[id := c]);
      if Violated(c) then (st', TooMuchData)
      else CountForConnection(st', c, if increment.None? then 0 else increment.value)
  }

  /** As above, but here a smaller offset than before is an error. */
  function ResetStream(st: State, id: nat, offset: nat): (State, Outcome) {
    if id !in st.streams then (st, UnknownStream)
    else
      var (c, increment) := UpdateHighest(st.streams[id], offset);
      var st' := st.(streams := st.streams[id := c]);
      if increment.None? then (st', DataAfterTermination)
      else if Violated(c) then (st', TooMuchData)
      else CountForConnection(st', c, increment.value)
  }

  function Read(st: State, id: nat, n: nat, now: int): (State, Outcome) {
    if id !in st.streams then (st, UnknownStream)
    else
      var c := AddBytesRead(st.streams[id], n, now);
      var st' := st.(streams := st.streams[id := c]);
      (if c.contributes then st'.(conn := AddBytesRead(st.conn, n, now)) else st', Done)
  }

  function AddSent(c: Controller, n: nat): Controller {
    c.(bytesSent := c.bytesSent + n)
  }

  function Send(st: State, id: nat, n: nat): (State, Outcome) {
    if id !in st.streams then (st, UnknownStream)
    else
      var c := AddSent(st.streams[id], n);
      var st' := st.(streams := st.streams[id := c]);
      (if c.contributes then st'.(conn := AddSent(st.conn, n)) else st', Done)
  }

  function AddRetrans(c: Controller, n: nat): Controller {
    c.(bytesRetrans := c.bytesRetrans + n)
  }

  function Retransmit(st: State, id: nat, n: nat): (State, Outcome) {
    if id !in st.streams then (st, UnknownStream)
    else
      var c := AddRetrans(st.streams[id], n);
      var st' := st.(streams := st.streams[id := c]);
      (if c.contributes then st'.(conn := AddRetrans(st.conn, n)) else st', Done)
  }

  /** The peer's windows agreed on in the handshake, for a stream and for the connection. */
  datatype Negotiated = Negotiated(stream: nat, conn: nat)

  /** How much may be sent on the stream now; nothing on a stream that is not there. */
  function SendWindow(st: State, id: nat, negotiated: Negotiated): nat {
    if id !in st.streams then 0
    else
      var c := st.streams[id];
      var own := SendWindowSize(c, negotiated.stream);
      if c.contributes then Min(own, SendWindowSize(st.conn, negotiated.conn)) else own
  }

  function UpdatePeerWindow(st: State, id: nat, offset: nat): (State, Outcome) {
    if id == 0 then (st.(conn := UpdateSendWindow(st.conn, offset).0), Done)
    else if id !in st.streams then (st, UnknownStream)
    else (st.(streams := st.streams[id := UpdateSendWindow(st.streams[id], offset).0]), Done)
  }

  /** A first WINDOW_UPDATE for the stream, or for the connection, that cuts off what was sent. */
  predicate CutsOff(st: State, id: nat, offset: nat) {
    if id == 0 then FlowController.CutsOff(st.conn, offset)
    else id in st.streams && FlowController.CutsOff(st.streams[id], offset)
  }

  /** New agreed windows that cut off what was sent, where no WINDOW_UPDATE has come yet. */
  ghost predicate CutsOffAgreed(st: State, negotiated: Negotiated) {
    || (st.conn.sendWindow == 0 && negotiated.conn < st.conn.bytesSent)
    || exists id :: id in st.streams && st.streams[id].sendWindow == 0 && negotiated.stream < st.streams[id].bytesSent
  }

  datatype WindowUpdate = WindowUpdate(id: nat, offset: nat)

  /** A stream whose increment was raised asks for one and a half times as much for the connection. */
  function UpdateOne(st: State, id: nat, force: bool, clock: Clock): (State, seq<WindowUpdate>)
    requires id in st.streams
  {
    var u := MaybeUpdateWindow(st.streams[id], clock);
    var st' := st.(streams := st.streams[id := u.c]);
    if !(force || u.necessary) then (st', [])
    else
      var conn :=
        if u.c.contributes && u.newIncrement != 0 then EnsureMinimum(st.conn, u.newIncrement * 3 / 2) else st.conn;
      (st'.(conn := conn), [WindowUpdate(id, u.offset)])
  }

  function UpdateEach(st: State, order: seq<nat>, force: bool, clock: Clock): (State, seq<WindowUpdate>)
    requires forall id :: id in order ==> id in st.streams
    decreases |order|
  {
    if order == [] then (st, [])
    else
      var (st', first) := UpdateOne(st, order[0], force, clock);
      var (st'', rest) := UpdateEach(st', order[1..], force, clock);
      (st'', first + rest)
  }

  function GetWindowUpdates(st: State, order: seq<nat>, force: bool, clock: Clock): (State, seq<WindowUpdate>)
    requires forall id :: id in order ==> id in st.streams
  {
    var (st', updates) := UpdateEach(st, order, force, clock);
    var u := MaybeUpdateWindow(st'.conn, clock);
    (st'.(conn := u.c), if force || u.necessary then updates + [WindowUpdate(0, u.offset)] else updates)
  }

  // ----- Sums over the streams -----

  datatype Kind = Received | BytesRead | BytesSent

  function Amount(c: Controller, kind: Kind): nat {
    match kind
    case Received => c.highestReceived
    case BytesRead => c.bytesRead
    case BytesSent => c.bytesSent
  }

  /** What a stream counts for on the connection. */
  function Contribution(streams: map<nat, Controller>, id: nat, kind: Kind): nat {
    if id in streams && streams[id].contributes then Amount(streams[id], kind) else 0
  }

  function Sum(streams: map<nat, Controller>, ids: seq<nat>, kind: Kind): nat {
    if ids == [] then 0 else Contribution(streams, ids[0], kind) + Sum(streams, ids[1..], kind)
  }

  lemma {:induction false} SumSame(
    streams: map<nat, Controller>, streams': map<nat, Controller>, ids: seq<nat>, kind: Kind)
    requires forall id :: id in ids ==> Contribution(streams, id, kind) == Contribution(streams', id, kind)
    ensures Sum(streams, ids, kind) == Sum(streams', ids, kind)
  {
    if ids != [] {
      SumSame(streams, streams', ids[1..], kind);
    }
  }

  /** Changing one stream changes the sum by the change of its contribution. */
  lemma {:induction false} SumUpdate(
    streams: map<nat, Controller>, streams': map<nat, Controller>, ids: seq<nat>, id: nat, kind: Kind)
    requires NoDuplicates(ids) && id in ids
    requires forall x :: x in ids && x != id ==> Contribution(streams, x, kind) == Contribution(streams', x, kind)
    ensures Sum(streams', ids, kind) - Sum(streams, ids, kind)
      == Contribution(streams', id, kind) - Contribution(streams, id, kind)
    decreases |ids|
  {
    if ids[0] == id {
      SumSame(streams, streams', ids[1..], kind);
    } else {
      SumUpdate(streams, streams', ids[1..], id, kind);
    }
  }

  lemma {:induction false} SumWithout(streams: map<nat, Controller>, ids: seq<nat>, id: nat, kind: Kind)
    requires id in ids
    ensures Sum(streams, Without(ids, id), kind) + Contribution(streams, id, kind) == Sum(streams, ids, kind)
  {
    if ids[0] != id {
      SumWithout(streams, ids[1..], id, kind);
      var rest := Without(ids[1..], id);
      assert ([ids[0]] + rest)[1..] == rest;
    }
  }

  // ----- Conservation -----

  /** The streams that are there, and what the streams removed so far had contributed. */
  datatype Ledger = Ledger(ids: seq<nat>, received: nat, read: nat, sent: nat) {
    function Removed(kind: Kind): nat {
      match kind
      case Received => received
      case BytesRead => read
      case BytesSent => sent
    }
  }

  const EMPTY := Ledger([], 0, 0, 0)

  ghost predicate Enumerates(ids: seq<nat>, streams: map<nat, Controller>) {
    NoDuplicates(ids) && forall id :: id in ids <==> id in streams
  }

  ghost predicate Conserved(st: State, l: Ledger, kind: Kind) {
    && Enumerates(l.ids, st.streams)
    && Amount(st.conn, kind) == Sum(st.streams, l.ids, kind) + l.Removed(kind)
  }

  /** A change of one stream, matched by the same change of the connection if the stream contributes. */
  lemma {:induction false} ChangeKeeps(st: State, l: Ledger, kind: Kind, id: nat, c: Controller, conn: Controller)
    requires Conserved(st, l, kind) && id in st.streams && c.contributes == st.streams[id].contributes
    requires Amount(conn, kind) - Amount(st.conn, kind)
      == if c.contributes then Amount(c, kind) - Amount(st.streams[id], kind) else 0
    ensures Conserved(State(st.streams[id := c], conn), l, kind)
  {
    SumUpdate(st.streams, st.streams[id := c], l.ids, id, kind);
  }

  datatype Call =
    | CallNewStream(id: nat, contributes: bool, window: nat, maxIncrement: nat)
    | CallRemoveStream(id: nat)
    | CallUpdateHighestReceived(id: nat, offset: nat)
    | CallResetStream(id: nat, offset: nat)
    | CallRead(id: nat, n: nat, now: int)
    | CallSend(id: nat, n: nat)
    | CallRetransmit(id: nat, n: nat)
    | CallUpdatePeerWindow(id: nat, offset: nat)
    | CallGetWindowUpdates(order: seq<nat>, force: bool, clock: Clock)

  function Apply(st: State, call: Call): (State, Outcome) {
    match call
    case CallNewStream(id, contributes, window, maxIncrement) =>
      (NewStream(st, id, contributes, window, maxIncrement), Done)
    case CallRemoveStream(id) => (RemoveStream(st, id), Done)
    case CallUpdateHighestReceived(id, offset) => UpdateHighestReceived(st, id, offset)
    case CallResetStream(id, offset) => ResetStream(st, id, offset)
    case CallRead(id, n, now) => Read(st, id, n, now)
    case CallSend(id, n) => Send(st, id, n)
    case CallRetransmit(id, n) => Retransmit(st, id, n)
    case CallUpdatePeerWindow(id, offset) => UpdatePeerWindow(st, id, offset)
    case CallGetWindowUpdates(order, force, clock) =>
      (if forall id :: id in order ==> id in st.streams then GetWindowUpdates(st, order, force, clock).0 else st, Done)
  }

  function Record(st: State, l: Ledger, call: Call): Ledger {
    match call
    case CallNewStream(id, _, _, _) => if id in st.streams then l else l.(ids := [id] + l.ids)
    case CallRemoveStream(id) =>
      if id !in st.streams then l
      else Ledger(
        Without(l.ids, id),
        l.received + Contribution(st.streams, id, Received),
        l.read + Contribution(st.streams, id, BytesRead),
        l.sent + Contribution(st.streams, id, BytesSent))
    case _ => l
  }

  lemma {:induction false} NewStreamKeeps(st: State, l: Ledger, kind: Kind, id: nat, c: Controller)
    requires Conserved(st, l, kind) && id !in st.streams && Amount(c, kind) == 0
    ensures Conserved(st.(streams := st.streams[id := c]), l.(ids := [id] + l.ids), kind)
  {
    SumSame(st.streams, st.streams[id := c], l.ids, kind);
    assert ([id] + l.ids)[1..] == l.ids;
  }

  lemma {:induction false} RemoveStreamKeeps(st: State, l: Ledger, kind: Kind, id: nat)
    requires Conserved(st, l, kind)
    ensures Conserved(RemoveStream(st, id), Record(st, l, CallRemoveStream(id)), kind)
  {
    if id in st.streams {
      WithoutEffect(l.ids, id);
      SumWithout(st.streams, l.ids, id, kind);
      SumSame(st.streams, st.streams - {id}, Without(l.ids, id), kind);
    } else {
      assert st.streams - {id} == st.streams;
    }
  }

  lemma {:induction false} UpdateOneKeeps(st: State, l: Ledger, kind: Kind, id: nat, force: bool, clock: Clock)
    requires Conserved(st, l, kind) && id in st.streams
    ensures Conserved(UpdateOne(st, id, force, clock).0, l, kind)
  {
    var st' := UpdateOne(st, id, force, clock).0;
    ChangeKeeps(st, l, kind, id, MaybeUpdateWindow(st.streams[id], clock).c, st'.conn);
  }

  lemma {:induction false} UpdateEachKeeps(st: State, l: Ledger, kind: Kind, order: seq<nat>, force: bool, clock: Clock)
    requires Conserved(st, l, kind) && forall id :: id in order ==> id in st.streams
    ensures Conserved(UpdateEach(st, order, force, clock).0, l, kind)
    decreases |order|
  {
    if order != [] {
      UpdateOneKeeps(st, l, kind, order[0], force, clock);
      UpdateEachKeeps(UpdateOne(st, order[0], force, clock).0, l, kind, order[1..], force, clock);
    }
  }

  /** Every call that reports no error keeps the books. */
  lemma {:induction false} ApplyKeeps(st: State, l: Ledger, kind: Kind, call: Call)
    requires Conserved(st, l, kind) && Apply(st, call).1 == Done
    ensures Conserved(Apply(st, call).0, Record(st, l, call), kind)
  {
    match call
    case CallNewStream(id, contributes, window, maxIncrement) =>
      if id !in st.streams {
        NewStreamKeeps(st, l, kind, id, FlowController.Init(contributes, window, maxIncrement));
      }
    case CallRemoveStream(id) => RemoveStreamKeeps(st, l, kind, id);
    case CallGetWindowUpdates(order, force, clock) =>
      if forall id :: id in order ==> id in st.streams {
        UpdateEachKeeps(st, l, kind, order, force, clock);
      }
    case _ => CountKeeps(st, l, kind, call);
  }

  /** The calls that change the counters or the window of one stream. */
  lemma {:induction false} CountKeeps(st: State, l: Ledger, kind: Kind, call: Call)
    requires Conserved(st, l, kind) && Apply(st, call).1 == Done
    requires !call.CallNewStream? && !call.CallRemoveStream? && !call.CallGetWindowUpdates?
    ensures Conserved(Apply(st, call).0, l, kind)
  {
    var st' := Apply(st, call).0;
    var id := call.id;
    if !call.CallUpdatePeerWindow? || id != 0 {
      ChangeKeeps(st, l, kind, id, st'.streams[id], st'.conn);
    }
  }

  // ----- Whole runs -----

  /** A run in which no call reports an error. */
  ghost predicate Runs(st: State, calls: seq<Call>)
    decreases |calls|
  {
    calls == [] || (Apply(st, calls[0]).1 == Done && Runs(Apply(st, calls[0]).0, calls[1..]))
  }

  function Run(st: State, l: Ledger, calls: seq<Call>): (State, Ledger)
    decreases |calls|
  {
    if calls == [] then (st, l) else Run(Apply(st, calls[0]).0, Record(st, l, calls[0]), calls[1..])
  }

  lemma {:induction false} RunKeeps(st: State, l: Ledger, kind: Kind, calls: seq<Call>)
    requires Conserved(st, l, kind) && Runs(st, calls)
    ensures var (st', l') := Run(st, l, calls); Conserved(st', l', kind)
    decreases |calls|
  {
    if calls != [] {
      ApplyKeeps(st, l, kind, calls[0]);
      RunKeeps(Apply(st, calls[0]).0, Record(st, l, calls[0]), kind, calls[1..]);
    }
  }

  /**
    As long as no call has reported an error: the bytes received, read and sent on the connection are the sums
    over the contributing streams, those still there and those removed.
   */
  lemma {:induction false} Conservation(window: nat, maxIncrement: nat, calls: seq<Call>, kind: Kind)
    requires Runs(InitialState(window, maxIncrement), calls)
    ensures var (st, l) := Run(InitialState(window, maxIncrement), EMPTY, calls);
      Enumerates(l.ids, st.streams) && Amount(st.conn, kind) == Sum(st.streams, l.ids, kind) + l.Removed(kind)
  {
    RunKeeps(InitialState(window, maxIncrement), EMPTY, kind, calls);
  }

  // ----- Receive windows -----

  /** Nothing is read before it arrives, nothing arrives beyond the window, and the increment is within its maximum. */
  predicate Healthy(c: Controller) {
    c.bytesRead <= c.highestReceived <= c.receiveWindow && c.increment <= c.maxIncrement
  }

  ghost predicate AllHealthy(streams: map<nat, Controller>) {
    forall id :: id in streams ==> Healthy(streams[id])
  }

  ghost predicate Sane(st: State, l: Ledger) {
    && AllHealthy(st.streams)
    && Conserved(st, l, Received) && Conserved(st, l, BytesRead) && l.read <= l.received
    && st.conn.highestReceived <= st.conn.receiveWindow && st.conn.increment <= st.conn.maxIncrement
  }

  lemma {:induction false} SumReadBelowReceived(streams: map<nat, Controller>, ids: seq<nat>)
    requires AllHealthy(streams)
    ensures Sum(streams, ids, BytesRead) <= Sum(streams, ids, Received)
  {
    if ids != [] {
      SumReadBelowReceived(streams, ids[1..]);
    }
  }

  /** No more can have been read on the connection than has arrived on it. */
  lemma {:induction false} ConnectionHealthy(st: State, l: Ledger)
    requires Sane(st, l)
    ensures Healthy(st.conn)
  {
    SumReadBelowReceived(st.streams, l.ids);
  }

  /** What callers do: start within the maximum, and read only what has arrived. */
  predicate Disciplined(st: State, call: Call) {
    match call
    case CallNewStream(_, _, window, maxIncrement) => window <= maxIncrement
    case CallRead(id, n, _) => id in st.streams ==> st.streams[id].bytesRead + n <= st.streams[id].highestReceived
    case _ => true
  }

  /** No receive window has moved back. */
  ghost predicate Forward(st: State, st': State) {
    && st.conn.receiveWindow <= st'.conn.receiveWindow
    && forall id :: id in st.streams && id in st'.streams ==>
        st.streams[id].receiveWindow <= st'.streams[id].receiveWindow
  }

  lemma {:induction false} UpdateOneForward(st: State, l: Ledger, id: nat, force: bool, clock: Clock)
    requires Sane(st, l) && id in st.streams
    ensures var st' := UpdateOne(st, id, force, clock).0; Sane(st', l) && Forward(st, st')
    ensures UpdateOne(st, id, force, clock).0.streams.Keys == st.streams.Keys
  {
    WindowGrows(st.streams[id], clock);
    UpdateOneKeeps(st, l, Received, id, force, clock);
    UpdateOneKeeps(st, l, BytesRead, id, force, clock);
  }

  lemma {:induction false} UpdateEachForward(st: State, l: Ledger, order: seq<nat>, force: bool, clock: Clock)
    requires Sane(st, l) && forall id :: id in order ==> id in st.streams
    ensures var st' := UpdateEach(st, order, force, clock).0; Sane(st', l) && Forward(st, st')
    ensures UpdateEach(st, order, force, clock).0.streams.Keys == st.streams.Keys
    decreases |order|
  {
    if order != [] {
      UpdateOneForward(st, l, order[0], force, clock);
      UpdateEachForward(UpdateOne(st, order[0], force, clock).0, l, order[1..], force, clock);
    }
  }

  /** Whatever the order of the streams, window updates only move windows forward. */
  lemma {:induction false} WindowUpdatesForward(st: State, l: Ledger, order: seq<nat>, force: bool, clock: Clock)
    requires Sane(st, l) && forall id :: id in order ==> id in st.streams
    ensures var st' := GetWindowUpdates(st, order, force, clock).0; Sane(st', l) && Forward(st, st')
  {
    UpdateEachForward(st, l, order, force, clock);
    var st' := UpdateEach(st, order, force, clock).0;
    ConnectionHealthy(st', l);
    WindowGrows(st'.conn, clock);
  }

  ghost predicate Bounded(st: State) {
    && AllHealthy(st.streams)
    && st.conn.highestReceived <= st.conn.receiveWindow && st.conn.increment <= st.conn.maxIncrement
  }

  /** The calls that leave receive windows alone keep every stream healthy. */
  lemma {:induction false} ApplyBounded(st: State, call: Call)
    requires Bounded(st) && Disciplined(st, call) && Apply(st, call).1 == Done && !call.CallGetWindowUpdates?
    ensures Bounded(Apply(st, call).0) && Forward(st, Apply(st, call).0)
  {
    match call
    case CallNewStream(id, contributes, window, maxIncrement) =>
    case CallRemoveStream(id) =>
    case CallUpdateHighestReceived(id, offset) =>
    case CallResetStream(id, offset) =>
    case CallRead(id, n, now) =>
    case CallSend(id, n) =>
    case CallRetransmit(id, n) =>
    case CallUpdatePeerWindow(id, offset) =>
  }

  lemma {:induction false} RemovedKeeps(st: State, l: Ledger, call: Call)
    requires AllHealthy(st.streams) && l.read <= l.received
    ensures Record(st, l, call).read <= Record(st, l, call).received
  {
  }

  lemma {:induction false} ApplyForward(st: State, l: Ledger, call: Call)
    requires Sane(st, l) && Disciplined(st, call) && Apply(st, call).1 == Done
    ensures Sane(Apply(st, call).0, Record(st, l, call)) && Forward(st, Apply(st, call).0)
  {
    if call.CallGetWindowUpdates? {
      if forall id :: id in call.order ==> id in st.streams {
        WindowUpdatesForward(st, l, call.order, call.force, call.clock);
      }
    } else {
      ApplyBounded(st, call);
      assert Sane(Apply(st, call).0, Record(st, l, call)) by {
        RemovedKeeps(st, l, call);
        ApplyKeeps(st, l, Received, call);
        ApplyKeeps(st, l, BytesRead, call);
      }
    }
  }

  ghost predicate AllDisciplined(st: State, calls: seq<Call>)
    decreases |calls|
  {
    calls == [] || (Disciplined(st, calls[0]) && AllDisciplined(Apply(st, calls[0]).0, calls[1..]))
  }

  lemma {:induction false} RunForward(st: State, l: Ledger, calls: seq<Call>)
    requires Sane(st, l) && Runs(st, calls) && AllDisciplined(st, calls)
    ensures var (st', l') := Run(st, l, calls);
      && Sane(st', l') && Healthy(st'.conn) && st.conn.receiveWindow <= st'.conn.receiveWindow
    decreases |calls|
  {
    ConnectionHealthy(st, l);
    if calls != [] {
      ApplyForward(st, l, calls[0]);
      RunForward(Apply(st, calls[0]).0, Record(st, l, calls[0]), calls[1..]);
    }
  }

  lemma {:induction false} InitialSane(window: nat, maxIncrement: nat)
    requires window <= maxIncrement
    ensures Sane(InitialState(window, maxIncrement), EMPTY)
  {
  }

  predicate NeverRemoved(calls: seq<Call>, id: nat) {
    calls == [] || (calls[0] != CallRemoveStream(id) && NeverRemoved(calls[1..], id))
  }

  lemma {:induction false} StreamForward(st: State, l: Ledger, calls: seq<Call>, id: nat)
    requires Sane(st, l) && Runs(st, calls) && AllDisciplined(st, calls)
    requires id in st.streams && NeverRemoved(calls, id)
    ensures var st' := Run(st, l, calls).0;
      id in st'.streams && st.streams[id].receiveWindow <= st'.streams[id].receiveWindow
    decreases |calls|
  {
    if calls != [] {
      ApplyForward(st, l, calls[0]);
      StreamStays(st, calls[0], id);
      StreamForward(Apply(st, calls[0]).0, Record(st, l, calls[0]), calls[1..], id);
    }
  }

  lemma {:induction false} StreamStays(st: State, call: Call, id: nat)
    requires id in st.streams && call != CallRemoveStream(id)
    ensures id in Apply(st, call).0.streams
  {
    if call.CallGetWindowUpdates? && forall x :: x in call.order ==> x in st.streams {
      UpdateEachKeys(st, call.order, call.force, call.clock);
    }
  }

  lemma {:induction false} UpdateEachKeys(st: State, order: seq<nat>, force: bool, clock: Clock)
    requires forall id :: id in order ==> id in st.streams
    ensures UpdateEach(st, order, force, clock).0.streams.Keys == st.streams.Keys
    decreases |order|
  {
    if order != [] {
      UpdateEachKeys(UpdateOne(st, order[0], force, clock).0, order[1..], force, clock);
    }
  }

  /**
    In every run from the start, in which no call reports an error and callers read only what has arrived: at any
    later time the connection's window, and that of every stream not removed meanwhile, is at least what it was.
   */
  lemma {:induction false} WindowsNeverMoveBack(
    window: nat, maxIncrement: nat, calls: seq<Call>, more: seq<Call>, id: nat)
    requires window <= maxIncrement
    requires Runs(InitialState(window, maxIncrement), calls)
    requires AllDisciplined(InitialState(window, maxIncrement), calls)
    requires var st := Run(InitialState(window, maxIncrement), EMPTY, calls).0;
      Runs(st, more) && AllDisciplined(st, more)
    ensures var (st, l) := Run(InitialState(window, maxIncrement), EMPTY, calls);
      var st' := Run(st, l, more).0;
      && Healthy(st'.conn) && st.conn.receiveWindow <= st'.conn.receiveWindow
      && (id in st.streams && NeverRemoved(more, id) ==>
          id in st'.streams && st.streams[id].receiveWindow <= st'.streams[id].receiveWindow)
  {
    InitialSane(window, maxIncrement);
    RunForward(InitialState(window, maxIncrement), EMPTY, calls);
    var (st, l) := Run(InitialState(window, maxIncrement), EMPTY, calls);
    RunForward(st, l, more);
    if id in st.streams && NeverRemoved(more, id) {
      StreamForward(st, l, more, id);
    }
  }

  // ----- The manager as an object -----

  class Manager {
    var streamFlowController: map<nat, FlowControl>
    const connFlowController: FlowControl

    ghost function Controllers(): set<FlowControl>
      reads this
    {
      {connFlowController} + set id | id in streamFlowController :: streamFlowController[id]
    }

    /** Every stream, and the connection, has a controller of its own. */
    ghost predicate Distinct()
      reads this
    {
      && (forall id :: id in streamFlowController ==> streamFlowController[id] != connFlowController)
      && (forall a, b :: a in streamFlowController && b in streamFlowController && a != b ==>
          streamFlowController[a] != streamFlowController[b])
    }

    ghost function Contents(): State
      reads this, Controllers()
    {
      State(map id | id in streamFlowController :: streamFlowController[id].Contents(), connFlowController.Contents())
    }

    /** Only the controller of one stream, and perhaps that of the connection, has changed. */
    twostate lemma StreamChanged(id: nat)
      requires id in streamFlowController && streamFlowController == old(streamFlowController)
      requires forall x :: x in streamFlowController && x != id ==> unchanged(streamFlowController[x])
      ensures Contents() == State(
        old(Contents()).streams[id := streamFlowController[id].Contents()], connFlowController.Contents())
    {
    }

    /** Only the controller of the connection has changed. */
    twostate lemma ConnectionChanged()
      requires streamFlowController == old(streamFlowController)
      requires forall x :: x in streamFlowController ==> unchanged(streamFlowController[x])
      ensures Contents() == old(Contents()).(conn := connFlowController.Contents())
    {
    }

    constructor (window: nat, maxIncrement: nat)
      ensures Contents() == InitialState(window, maxIncrement) && Distinct() && fresh(Controllers())
    {
      streamFlowController := map[];
      connFlowController := new FlowControl(false, window, maxIncrement);
    }

    method AddStream(id: nat, contributes: bool, window: nat, maxIncrement: nat)
      requires Distinct()
      modifies this
      ensures Contents() == NewStream(old(Contents()), id, contributes, window, maxIncrement)
      ensures Distinct() && fresh(Controllers() - old(Controllers()))
    {
      if id !in streamFlowController {
        var c := new FlowControl(contributes, window, maxIncrement);
        streamFlowController := streamFlowController[id := c];
      }
    }

    method DropStream(id: nat)
      requires Distinct()
      modifies this
      ensures Contents() == RemoveStream(old(Contents()), id)
      ensures Distinct() && Controllers() <= old(Controllers())
    {
      streamFlowController := streamFlowController - {id};
    }

    method CountReceived(c: FlowControl, increment: nat) returns (r: Outcome)
      requires Distinct() && c in streamFlowController.Values
      modifies connFlowController
      ensures (Contents(), r) == CountForConnection(old(Contents()), old(c.Contents()), increment)
    {
      r := Done;
      if c.contributes {
        connFlowController.IncrementHighestReceived(increment);
        if connFlowController.highestReceived > connFlowController.receiveWindow {
          r := TooMuchData;
        }
      }
      ConnectionChanged();
    }

    method ReceivedUpTo(id: nat, offset: nat) returns (r: Outcome)
      requires Distinct()
      modifies Controllers()
      ensures (Contents(), r) == UpdateHighestReceived(old(Contents()), id, offset)
    {
      if id !in streamFlowController {
        return UnknownStream;
      }
      var c := streamFlowController[id];
      var increment := c.UpdateHighestReceived(offset);
      StreamChanged(id);
      if c.highestReceived > c.receiveWindow {
        return TooMuchData;
      }
      r := CountReceived(c, if increment.None? then 0 else increment.value);
    }

    method Reset(id: nat, offset: nat) returns (r: Outcome)
      requires Distinct()
      modifies Controllers()
      ensures (Contents(), r) == ResetStream(old(Contents()), id, offset)
    {
      if id !in streamFlowController {
        return UnknownStream;
      }
      var c := streamFlowController[id];
      var increment := c.UpdateHighestReceived(offset);
      StreamChanged(id);
      if increment.None? {
        return DataAfterTermination;
      }
      if c.highestReceived > c.receiveWindow {
        return TooMuchData;
      }
      r := CountReceived(c, increment.value);
    }

    method BytesSentOn(id: nat, n: nat) returns (r: Outcome)
      requires Distinct()
      modifies Controllers()
      ensures (Contents(), r) == Send(old(Contents()), id, n)
    {
      if id !in streamFlowController {
        return UnknownStream;
      }
      var c := streamFlowController[id];
      c.AddBytesSent(n);
      if c.contributes {
        connFlowController.AddBytesSent(n);
      }
      StreamChanged(id);
      r := Done;
    }

    method BytesRetransmittedOn(id: nat, n: nat) returns (r: Outcome)
      requires Distinct()
      modifies Controllers()
      ensures (Contents(), r) == Retransmit(old(Contents()), id, n)
    {
      if id !in streamFlowController {
        return UnknownStream;
      }
      var c := streamFlowController[id];
      c.AddBytesRetrans(n);
      if c.contributes {
        connFlowController.AddBytesRetrans(n);
      }
      StreamChanged(id);
      r := Done;
    }

    method BytesReadOn(id: nat, n: nat, now: int) returns (r: Outcome)
      requires Distinct()
      modifies Controllers()
      ensures (Contents(), r) == Read(old(Contents()), id, n, now)
    {
      if id !in streamFlowController {
        return UnknownStream;
      }
      var c := streamFlowController[id];
      c.Read(n, now);
      if c.contributes {
        connFlowController.Read(n, now);
      }
      StreamChanged(id);
      r := Done;
    }

    method UpdateWindowOfPeer(id: nat, offset: nat) returns (r: Outcome)
      requires Distinct()
      modifies Controllers()
      ensures (Contents(), r) == UpdatePeerWindow(old(Contents()), id, offset)
    {
      if id == 0 {
        var updated := connFlowController.UpdateWindowOfPeer(offset);
        ConnectionChanged();
        return Done;
      }
      if id !in streamFlowController {
        return UnknownStream;
      }
      var updated := streamFlowController[id].UpdateWindowOfPeer(offset);
      StreamChanged(id);
      r := Done;
    }

    method UpdateStreamWindow(id: nat, force: bool, clock: Clock) returns (updates: seq<WindowUpdate>)
      requires Distinct() && id in streamFlowController
      modifies Controllers()
      ensures (Contents(), updates) == UpdateOne(old(Contents()), id, force, clock)
    {
      var c := streamFlowController[id];
      var necessary, newIncrement, offset := c.UpdateWindow(clock);
      updates := [];
      if force || necessary {
        updates := [WindowUpdate(id, offset)];
        if c.contributes && newIncrement != 0 {
          connFlowController.EnsureMinimumWindowIncrement(newIncrement * 3 / 2);
        }
      }
      StreamChanged(id);
    }

    /** The loop over the map, in the order given. */
    method UpdateStreamWindows(order: seq<nat>, force: bool, clock: Clock) returns (updates: seq<WindowUpdate>)
      requires Distinct() && forall id :: id in order ==> id in streamFlowController
      modifies Controllers()
      ensures (Contents(), updates) == UpdateEach(old(Contents()), order, force, clock)
    {
      updates := [];
      var rest := order;
      ghost var all := UpdateEach(Contents(), order, force, clock);
      assert [] + all.1 == all.1;
      while rest != []
        invariant forall id :: id in rest ==> id in streamFlowController
        invariant UpdateEach(Contents(), rest, force, clock).0 == all.0
        invariant updates + UpdateEach(Contents(), rest, force, clock).1 == all.1
        decreases |rest|
      {
        ghost var more := UpdateEach(UpdateOne(Contents(), rest[0], force, clock).0, rest[1..], force, clock).1;
        var one := UpdateStreamWindow(rest[0], force, clock);
        Associate(updates, one, more);
        updates := updates + one;
        rest := rest[1..];
      }
      assert updates + [] == updates;
    }

    method WindowUpdates(order: seq<nat>, force: bool, clock: Clock) returns (updates: seq<WindowUpdate>)
      requires Distinct() && forall id :: id in order ==> id in streamFlowController
      modifies Controllers()
      ensures (Contents(), updates) == GetWindowUpdates(old(Contents()), order, force, clock)
    {
      updates := UpdateStreamWindows(order, force, clock);
      label Streams:
      var necessary, newIncrement, offset := connFlowController.UpdateWindow(clock);
      ConnectionChanged@Streams();
      if force || necessary {
        updates := updates + [WindowUpdate(0, offset)];
      }
    }
  }
}
