/**
  The frames other than STREAM on the wire, as far as their length is concerned (quic-go/internal/wire): the
  length that the packer counts on, and the bytes that are written.
 */
module ControlFrames {
  import opened Basics
  import opened ByteOrder
  import opened PacketNumber
  import opened AckRanges
  import A = AckFrames
  import C = ClosePathFrames
  import Float16

  datatype Control =
    | StopWaiting(leastUnacked: nat, packetNumber: nat, numberLength: Length)
    | Ack(ack: A.AckFrame, delay: nat)
    | WindowUpdate(id: nat, offset: nat)
    | Blocked(id: nat)
    | RstStream(id: nat, offset: nat, code: nat)
    | Ping
    | Goaway(code: nat, lastGood: nat, reason: seq<byte>)
    | ConnectionClose(code: nat, reason: seq<byte>)
    | AddAddress(version: byte, ip: seq<byte>, port: nat)
    | ClosePath(close: C.ClosePathFrame)
    | Paths(maxPaths: byte, paths: seq<(byte, nat)>)

  /** Acknowledgements are those a receiver builds; an address has the length of its version. */
  ghost predicate Proper(c: Control) {
    match c
    case Ack(ack, _) => A.WellFormed(ack)
    case ClosePath(close) => A.WellFormed(close.Ack())
    case AddAddress(version, ip, _) => (version == 4 ==> |ip| == 4) && (version == 6 ==> |ip| == 16)
    case Paths(_, paths) => |paths| < 256
    case _ => true
  }

  /** The length of the frame, as the source computes it; `None` if the source reports an error. */
  function MinLength(c: Control): Option<nat>
    requires Proper(c)
  {
    match c
    case StopWaiting(_, _, numberLength) => Some(1 + numberLength)
    case Ack(ack, _) => Some(A.FrameLength(ack))
    case WindowUpdate(_, _) => Some(13)
    case Blocked(_) => Some(5)
    case RstStream(_, _, _) => Some(17)
    case Ping => Some(1)
    case Goaway(_, _, reason) => Some(11 + |reason|)
    case ConnectionClose(_, reason) => Some(7 + |reason|)
    case AddAddress(version, _, _) => if version == 4 then Some(8) else if version == 6 then Some(20) else None
    case ClosePath(close) => Some(C.FrameLength(close))
    case Paths(_, paths) => Some(PathsLength(|paths|))
  }

  /** Computed in a single byte. */
  function PathsLength(n: nat): nat {
    (3 + 3 * n) % 256
  }

  function PutPaths(order: Order, paths: seq<(byte, nat)>): (s: seq<byte>)
    ensures |s| == 3 * |paths|
  {
    if paths == [] then []
    else [paths[0].0] + Put(order, Float16.Encode(paths[0].1), 2) + PutPaths(order, paths[1..])
  }

  function Write(order: Order, c: Control): Option<seq<byte>>
    requires Proper(c)
  {
    match c
    case StopWaiting(leastUnacked, packetNumber, numberLength) =>
      if packetNumber == 0 || leastUnacked > packetNumber then None
      else Some([0x06] + Put(order, packetNumber - leastUnacked, numberLength))
    case Ack(ack, delay) => FromResult(A.Write(order, ack, delay))
    case WindowUpdate(id, offset) => Some([0x04] + Put(order, id, 4) + Put(order, offset, 8))
    case Blocked(id) => Some([0x05] + Put(order, id, 4))
    case RstStream(id, offset, code) => Some([0x01] + Put(order, id, 4) + Put(order, offset, 8) + Put(order, code, 4))
    case Ping => Some([0x07])
    case Goaway(code, lastGood, reason) =>
      Some([0x03] + Put(order, code, 4) + Put(order, lastGood, 4) + Put(order, |reason|, 2) + reason)
    case ConnectionClose(code, reason) =>
      if |reason| > 0xFFFF then None else Some([0x02] + Put(order, code, 4) + Put(order, |reason|, 2) + reason)
    case AddAddress(version, ip, port) =>
      if version != 4 && version != 6 then None else Some([0x10, version] + ip + Put(order, port, 2))
    case ClosePath(close) => FromResult(C.Write(order, close))
    case Paths(maxPaths, paths) => Some([0x12, maxPaths, |paths|] + PutPaths(order, paths))
  }

  function FromResult(r: Result<seq<byte>, A.WriteError>): Option<seq<byte>> {
    match r
    case Ok(bytes) => Some(bytes)
    case Err(_) => None
  }

  /** Every frame is written with the length computed for it, except a PATHS frame for more than 84 paths. */
  lemma {:induction false} LengthWritten(order: Order, c: Control)
    requires Proper(c) && Write(order, c).Some? && MinLength(c).Some?
    ensures |Write(order, c).value| == MinLength(c).value <==> (c.Paths? ==> |c.paths| <= 84)
  {
    match c
    case Ack(ack, delay) => A.LengthWritten(order, ack, delay);
    case ClosePath(close) => C.LengthWritten(order, close);
    case _ =>
  }
}
