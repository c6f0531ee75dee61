/** The STREAM frame of quic-go/internal/wire/stream_frame.go as a value. */
module StreamFrames {
  import opened Basics

  datatype StreamFrame = StreamFrame(
    streamID: nat,
    fin: bool,
    dataLenPresent: bool,
    offset: nat,
    data: seq<byte>
  ) {
    function End(): nat {
      offset + |data|
    }

    /** The frame without its first `n` data bytes. */
    function Drop(n: nat): StreamFrame
      requires n <= |data|
    {
      this.(offset := offset + n, data := data[n..])
    }

    /** The frame cut after its first `n` data bytes; the FIN bit is kept, as the source keeps it. */
    function Take(n: nat): StreamFrame
      requires n <= |data|
    {
      this.(data := data[..n])
    }
  }

  /** The frame carries exactly the bytes of `content` at its offset. */
  predicate Carries(f: StreamFrame, content: seq<byte>) {
    f.End() <= |content| && f.data == content[f.offset..f.End()]
  }

  lemma {:induction false} DropCarries(f: StreamFrame, n: nat, content: seq<byte>)
    requires n <= |f.data| && Carries(f, content)
    ensures Carries(f.Drop(n), content) && f.Drop(n).End() == f.End()
  {
  }

  lemma {:induction false} TakeCarries(f: StreamFrame, n: nat, content: seq<byte>)
    requires n <= |f.data| && Carries(f, content)
    ensures Carries(f.Take(n), content) && f.Take(n).End() == f.offset + n
  {
  }
}
