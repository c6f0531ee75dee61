/** Fixed-width unsigned integers on the wire (quic-go/internal/utils/byteorder_*.go). */
module ByteOrder {
  import opened Basics

  datatype Order = LittleEndian | BigEndian

  function Pow256(n: nat): (p: nat)
    ensures p >= 1
  {
    if n == 0 then 1 else 256 * Pow256(n - 1)
  }

  /** The low `n` bytes of `v`: higher bytes are cut off, as the source's conversions do. */
  function Put(order: Order, v: nat, n: nat): (s: seq<byte>)
    ensures |s| == n
    decreases n
  {
    if n == 0 then []
    else match order
      case LittleEndian => [v % 256] + Put(order, v / 256, n - 1)
      case BigEndian => Put(order, v / 256, n - 1) + [v % 256]
  }

  function Value(order: Order, s: seq<byte>): (v: nat) {
    if s == [] then 0
    else match order
      case LittleEndian => s[0] + 256 * Value(order, s[1..])
      case BigEndian => 256 * Value(order, s[..|s| - 1]) + s[|s| - 1]
  }

  lemma {:induction false} ValueBound(order: Order, s: seq<byte>)
    ensures Value(order, s) < Pow256(|s|)
  {
    if s != [] {
      ValueBound(order, if order == LittleEndian then s[1..] else s[..|s| - 1]);
    }
  }

  /** Reading back what was written gives the value, if it fits. */
  lemma {:induction false} PutValue(order: Order, v: nat, n: nat)
    requires v < Pow256(n)
    ensures Value(order, Put(order, v, n)) == v
    decreases n
  {
    if n > 0 {
      PutValue(order, v / 256, n - 1);
      var s := Put(order, v, n);
      if order == LittleEndian {
        assert s[1..] == Put(order, v / 256, n - 1);
      } else {
        assert s[..n - 1] == Put(order, v / 256, n - 1);
      }
    }
  }

  /** Take an unsigned integer of `n` bytes from the front of the input; `None` if it is too short. */
  function Get(order: Order, s: seq<byte>, n: nat): Option<(nat, seq<byte>)> {
    if n <= |s| then Some((Value(order, s[..n]), s[n..])) else None
  }

  /** The same, with the error to report if the input is too short. */
  function GetInt<E>(order: Order, s: seq<byte>, n: nat, tooShort: E): Result<(nat, seq<byte>), E> {
    match Get(order, s, n)
    case None => Err(tooShort)
    case Some(v) => Ok(v)
  }

  lemma {:induction false} GetPut(order: Order, v: nat, n: nat, rest: seq<byte>)
    requires v < Pow256(n)
    ensures Get(order, Put(order, v, n) + rest, n) == Some((v, rest))
  {
    var s := Put(order, v, n);
    assert (s + rest)[..n] == s && (s + rest)[n..] == rest;
    PutValue(order, v, n);
  }

  lemma {:induction false} GetPutInt<E>(order: Order, v: nat, n: nat, rest: seq<byte>, tooShort: E)
    requires v < Pow256(n)
    ensures GetInt(order, Put(order, v, n) + rest, n, tooShort) == Ok((v, rest))
  {
    GetPut(order, v, n, rest);
  }

  lemma {:induction false} ValueAppend(order: Order, s: seq<byte>, b: byte)
    ensures Value(order, s + [b]) == match order
      case LittleEndian => Value(order, s) + b * Pow256(|s|)
      case BigEndian => 256 * Value(order, s) + b
  {
    var t := s + [b];
    if order == BigEndian {
      assert t[..|t| - 1] == s;
    } else if s == [] {
      assert t[1..] == [];
    } else {
      assert t[1..] == s[1..] + [b];
      ValueAppend(order, s[1..], b);
      assert 256 * (b * Pow256(|s| - 1)) == b * Pow256(|s|);
    }
  }

  /** Read `n` bytes one by one, adding each at its place value. */
  method ReadUintN(order: Order, s: seq<byte>, n: nat) returns (r: Option<(nat, seq<byte>)>)
    ensures r == Get(order, s, n)
  {
    var res: nat, rest, place: nat := 0, s, 1;
    for i := 0 to n
      invariant i <= |s| && rest == s[i..] && res == Value(order, s[..i])
      invariant place == Pow256(i)
    {
      if rest == [] {
        return None;
      }
      assert s[..i + 1] == s[..i] + [s[i]];
      ValueAppend(order, s[..i], s[i]);
      res := match order
        case LittleEndian => res + rest[0] * place
        case BigEndian => res * 256 + rest[0];
      rest, place := rest[1..], place * 256;
    }
    r := Some((res, rest));
  }
}
