/** Shared value types: bytes, optional values and results, and the bounds of Go's unsigned integers. */
module Basics {

  type byte = x: int | 0 <= x < 256

  type u16 = x: int | 0 <= x < 0x1_0000

  /** The largest value of a Go `uint64`, which is also `protocol.MaxByteCount`. */
  const MAX_U64: nat := 0xFFFF_FFFF_FFFF_FFFF

  /** One past the largest value of a Go `uint64`. */
  const TWO_64: nat := 0x1_0000_0000_0000_0000

  /** `protocol.MaxPacketSize`. */
  const MAX_PACKET_SIZE: nat := 1350

  /** Bytes of a stream, from `start` up to, not including, `end`. */
  datatype ByteInterval = ByteInterval(start: nat, end: nat)

  datatype Option<+T> = None | Some(value: T)

  datatype Result<+T, +E> = Ok(value: T) | Err(error: E) {
    predicate IsFailure() {
      Err?
    }

    function PropagateFailure<U>(): Result<U, E>
      requires Err?
    {
      Err(error)
    }

    function Extract(): T
      requires Ok?
    {
      value
    }
  }

  function Min(a: int, b: int): int {
    if a < b then a else b
  }

  function Max(a: int, b: int): int {
    if a > b then a else b
  }

  lemma {:induction false} Associate<T>(a: seq<T>, b: seq<T>, c: seq<T>)
    ensures a + b + c == a + (b + c)
  {
  }
}
