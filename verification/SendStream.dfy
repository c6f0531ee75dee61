/**
  The sending half of a stream (quic-go/stream.go): data waiting to be sent, the write offset and the flags
  that decide when the FIN is due. Each public call is one step; blocking and deadlines are not modelled.
 */
module SendStream {
  import opened Basics

  /** `pending` is the data of a `Write` that is not handed out yet. */
  datatype State = State(
    offset: nat, pending: Option<seq<byte>>, failed: bool, finishedWriting: bool, finSent: bool)

  const INIT := State(0, None, false, false, false)

  datatype WriteResult = Accepted | Refused

  /**
    A stream holds one piece of data at a time. The caller is held back until it is handed out; if its
    deadline passes before, the next call replaces what is left.
   */
  function Write(st: State, p: seq<byte>): (State, WriteResult) {
    if st.failed || st.finishedWriting then (st, Refused)
    else if p == [] then (st, Accepted)
    else (st.(pending := Some(p)), Accepted)
  }

  function Close(st: State): State {
    st.(finishedWriting := true)
  }

  /** Cancelling or resetting the stream stops it for good. */
  function Fail(st: State): State {
    st.(failed := true)
  }

  function LenOfDataForWriting(st: State): nat {
    if st.failed || st.pending.None? then 0 else |st.pending.value|
  }

  function GetDataForWriting(st: State, maxBytes: nat): (State, Option<seq<byte>>) {
    if st.failed || st.pending.None? then (st, None)
    else
      var data := st.pending.value;
      if |data| > maxBytes then
        (st.(pending := Some(data[maxBytes..]), offset := st.offset + maxBytes), Some(data[..maxBytes]))
      else (st.(pending := None, offset := st.offset + |data|), Some(data))
  }

  predicate ShouldSendFin(st: State) {
    st.finishedWriting && !st.finSent && !st.failed && st.pending.None?
  }

  function SentFin(st: State): State {
    st.(finSent := true)
  }

  // ----- What was handed out -----

  /** `handed` is everything handed out so far: the offset counts it. Once the FIN was sent, nothing is left. */
  ghost predicate Handed(st: State, handed: seq<byte>) {
    && st.offset == |handed|
    && (st.pending.Some? ==> st.pending.value != [])
    && (st.finSent ==> st.finishedWriting && st.pending.None?)
  }

  /** `accepted` is everything taken from the application: what is pending comes next. */
  ghost predicate Valid(st: State, accepted: seq<byte>, handed: seq<byte>) {
    Handed(st, handed) && accepted == handed + (if st.pending.None? then [] else st.pending.value)
  }

  /**
    Accepted data come after what has been handed out. They follow everything accepted before, so that no byte
    is lost, if and only if nothing was pending.
   */
  lemma {:induction false} WriteKeeps(st: State, p: seq<byte>, accepted: seq<byte>, handed: seq<byte>)
    requires Valid(st, accepted, handed)
    ensures var (st', r) := Write(st, p);
      && (r == Accepted <==> !st.failed && !st.finishedWriting)
      && Valid(st', if r == Accepted && p != [] then handed + p else accepted, handed)
      && (r == Accepted && p != [] ==> (Valid(st', accepted + p, handed) <==> st.pending.None?))
  {
    if st.pending.None? {
      assert handed + [] == handed;
    } else {
      assert |accepted + p| != |handed + p|;
    }
  }

  /** A byte that was accepted is never handed out if the next write comes before it. */
  lemma {:induction false} WriteLosesByte(x: byte, y: byte)
    ensures var st := Write(INIT, [x]).0;
      && Write(INIT, [x]).1 == Accepted && Valid(st, [x], [])
      && Write(st, [y]).1 == Accepted
      && GetDataForWriting(Write(st, [y]).0, 2) == (State(1, None, false, false, false), Some([y]))
  {
    assert [] + [x] == [x];
  }

  /**
    Data are handed out in order and without a gap, at the offset announced before the call, never more than
    asked for, and never after the FIN.
   */
  lemma {:induction false} GetDataKeeps(st: State, maxBytes: nat, accepted: seq<byte>, handed: seq<byte>)
    requires Valid(st, accepted, handed) && 0 < maxBytes
    ensures var (st', data) := GetDataForWriting(st, maxBytes);
      if data.None? then st' == st
      else
        && Valid(st', accepted, handed + data.value)
        && handed + data.value <= accepted
        && data.value != [] && |data.value| <= maxBytes
        && !st.finSent
  {
    var (st', data) := GetDataForWriting(st, maxBytes);
    if data.Some? {
      var all := st.pending.value;
      if |all| > maxBytes {
        assert all[..maxBytes] + all[maxBytes..] == all;
        Associate(handed, all[..maxBytes], all[maxBytes..]);
      } else {
        assert handed + all + [] == handed + all;
      }
    }
  }

  /** The FIN is due only when everything accepted has been handed out, and no byte is accepted afterwards. */
  lemma {:induction false} FinIsLast(st: State, p: seq<byte>, accepted: seq<byte>, handed: seq<byte>)
    requires Valid(st, accepted, handed) && (ShouldSendFin(st) || st.finSent)
    ensures accepted == handed && Valid(SentFin(st), accepted, handed)
    ensures Write(SentFin(st), p) == (SentFin(st), Refused)
    ensures LenOfDataForWriting(SentFin(st)) == 0
  {
  }

  class Stream {
    var writeOffset: nat
    var dataForWriting: Option<seq<byte>>
    var failed: bool
    var finishedWriting: bool
    var finSent: bool

    ghost function Contents(): State
      reads this
    {
      State(writeOffset, dataForWriting, failed, finishedWriting, finSent)
    }

    constructor ()
      ensures Contents() == INIT
    {
      writeOffset, dataForWriting, failed, finishedWriting, finSent := 0, None, false, false, false;
    }

    method Offer(p: seq<byte>) returns (r: WriteResult)
      modifies this
      ensures (Contents(), r) == Write(old(Contents()), p)
    {
      if failed || finishedWriting {
        return Refused;
      }
      if p != [] {
        dataForWriting := Some(p);
      }
      r := Accepted;
    }

    method TakeData(maxBytes: nat) returns (r: Option<seq<byte>>)
      modifies this
      ensures (Contents(), r) == GetDataForWriting(old(Contents()), maxBytes)
    {
      if failed || dataForWriting.None? {
        return None;
      }
      var data := dataForWriting.value;
      if |data| > maxBytes {
        r := Some(data[..maxBytes]);
        dataForWriting := Some(data[maxBytes..]);
      } else {
        r := Some(data);
        dataForWriting := None;
      }
      writeOffset := writeOffset + |r.value|;
    }

    method MarkFinSent()
      modifies this
      ensures Contents() == SentFin(old(Contents()))
    {
      finSent := true;
    }
  }
}
