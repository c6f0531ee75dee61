/**
  Which packet numbers have been received on a path, as a list of intervals
  (quic-go/ackhandler/received_packet_history.go). The list is held from its back to its front, so that
  the interval with the highest packet numbers comes first, as in an ACK frame.
 */
module ReceivedPacketHistory {
  import opened Basics
  import opened PacketNumber
  import opened AckRanges

  const MAX_TRACKED_RANGES: nat := 2500

  /** Above every packet number: the bound for a whole list of intervals. */
  const TOP: nat := TWO_64 + 1

  // ----- Operations on values -----

  /** Join the first interval with the next one if they touch. */
  function Merge(x: AckRange, rest: seq<AckRange>): seq<AckRange> {
    if rest != [] && rest[0].last + 1 == x.first then [AckRange(rest[0].first, x.last)] + rest[1..] else [x] + rest
  }

  /** The list with packet number `p` added. */
  function Insert(ranges: seq<AckRange>, p: u64): seq<AckRange> {
    if ranges == [] then [AckRange(p, p)]
    else
      var x, rest := ranges[0], ranges[1..];
      if x.first <= p <= x.last then ranges
      else if x.last + 1 == p then Merge(AckRange(x.first, p), rest)
      else if x.first == p + 1 then Merge(AckRange(p, x.last), rest)
      else if x.last < p then [AckRange(p, p)] + ranges
      else [x] + Insert(rest, p)
  }

  /** The list without the packet numbers up to and including `p`. */
  function Delete(ranges: seq<AckRange>, p: nat): seq<AckRange> {
    if ranges == [] || ranges[0].last <= p then []
    else if ranges[0].first <= p then [AckRange(p + 1, ranges[0].last)]
    else [ranges[0]] + Delete(ranges[1..], p)
  }

  // ----- The list is a set -----

  lemma {:induction false} ContainsBelow(top: nat, ranges: seq<AckRange>, q: nat)
    requires Descending(top, ranges) && Contains(ranges, q)
    ensures q + 1 < top
    decreases |ranges|
  {
    if !(ranges[0].first <= q <= ranges[0].last) {
      ContainsBelow(ranges[0].first, ranges[1..], q);
    }
  }

  lemma {:induction false} MergeContains(x: AckRange, rest: seq<AckRange>, q: nat)
    requires x.first <= x.last && (rest != [] ==> rest[0].first <= rest[0].last)
    ensures Contains(Merge(x, rest), q) <==> x.first <= q <= x.last || Contains(rest, q)
  {
    assert ([x] + rest)[1..] == rest;
    if rest != [] {
      assert ([AckRange(rest[0].first, x.last)] + rest[1..])[1..] == rest[1..];
    }
  }

  /** Inserting adds exactly one number to the set. */
  lemma {:induction false} InsertContains(top: nat, ranges: seq<AckRange>, p: u64, q: nat)
    requires Descending(top, ranges)
    ensures Contains(Insert(ranges, p), q) <==> Contains(ranges, q) || q == p
    decreases |ranges|
  {
    if ranges == [] {
      assert [AckRange(p, p)][1..] == [];
    } else {
      var x, rest := ranges[0], ranges[1..];
      if x.last + 1 == p {
        MergeContains(AckRange(x.first, p), rest, q);
      } else if x.first == p + 1 {
        MergeContains(AckRange(p, x.last), rest, q);
      } else if x.last < p {
        assert ([AckRange(p, p)] + ranges)[1..] == ranges;
      } else if p < x.first {
        InsertContains(x.first, rest, p, q);
        assert ([x] + Insert(rest, p))[1..] == Insert(rest, p);
      }
    }
  }

  lemma {:induction false} MergeDescending(top: nat, x: AckRange, rest: seq<AckRange>)
    requires x.first <= x.last && x.last + 1 < top
    requires Descending(x.first + 1, rest)
    ensures Descending(top, Merge(x, rest))
  {
    if rest != [] {
      if rest[0].last + 1 == x.first {
        assert Merge(x, rest)[1..] == rest[1..];
      } else {
        assert ([x] + rest)[1..] == rest;
      }
    } else {
      assert [x] + rest == [x];
      assert [x][1..] == [];
    }
  }

  /** The intervals stay sorted, disjoint and maximal: no two of them touch. */
  lemma {:induction false} InsertDescending(top: nat, ranges: seq<AckRange>, p: u64)
    requires Descending(top, ranges) && p + 1 < top
    ensures Descending(top, Insert(ranges, p))
    decreases |ranges|
  {
    if ranges == [] {
      assert [AckRange(p, p)][1..] == [];
    } else {
      var x, rest := ranges[0], ranges[1..];
      if x.first <= p <= x.last {
      } else if x.last + 1 == p {
        DescendingRaise(x.first, x.first + 1, rest);
        MergeDescending(top, AckRange(x.first, p), rest);
      } else if x.first == p + 1 {
        MergeDescending(top, AckRange(p, x.last), rest);
      } else if x.last < p {
        assert ([AckRange(p, p)] + ranges)[1..] == ranges;
      } else {
        InsertDescending(x.first, rest, p);
        assert ([x] + Insert(rest, p))[1..] == Insert(rest, p);
      }
    }
  }

  lemma {:induction false} DescendingRaise(top: nat, top': nat, ranges: seq<AckRange>)
    requires Descending(top, ranges) && top <= top'
    ensures Descending(top', ranges)
  {
  }

  /** Deleting removes exactly the numbers up to `p`. */
  lemma {:induction false} DeleteContains(top: nat, ranges: seq<AckRange>, p: nat, q: nat)
    requires Descending(top, ranges)
    ensures Contains(Delete(ranges, p), q) <==> Contains(ranges, q) && p < q
    decreases |ranges|
  {
    if ranges != [] {
      var x, rest := ranges[0], ranges[1..];
      if Contains(rest, q) {
        ContainsBelow(x.first, rest, q);
      }
      if p < x.first {
        DeleteContains(x.first, rest, p, q);
        assert ([x] + Delete(rest, p))[1..] == Delete(rest, p);
      } else if p < x.last {
        assert [AckRange(p + 1, x.last)][1..] == [];
      }
    }
  }

  lemma {:induction false} DeleteDescending(top: nat, ranges: seq<AckRange>, p: nat)
    requires Descending(top, ranges)
    ensures Descending(top, Delete(ranges, p))
    decreases |ranges|
  {
    if ranges != [] {
      var x, rest := ranges[0], ranges[1..];
      if p < x.first {
        DeleteDescending(x.first, rest, p);
        assert ([x] + Delete(rest, p))[1..] == Delete(rest, p);
      } else if p < x.last {
        assert [AckRange(p + 1, x.last)][1..] == [];
      }
    }
  }

  /** Two lists with the same members are the same list: the intervals are as long as they can be. */
  lemma {:induction false} Canonical(top: nat, a: seq<AckRange>, c: seq<AckRange>)
    requires Descending(top, a) && Descending(top, c)
    requires forall q :: Contains(a, q) <==> Contains(c, q)
    ensures a == c
    decreases |a|
  {
    if a != [] {
      assert Contains(a, a[0].last);
    }
    if c != [] {
      assert Contains(c, c[0].last);
    }
    if a != [] && c != [] {
      CanonicalHead(top, a, c);
      forall q: nat ensures Contains(a[1..], q) <==> Contains(c[1..], q) {
        assert Contains(a, q) <==> Contains(c, q);
        if Contains(a[1..], q) {
          ContainsBelow(a[0].first, a[1..], q);
        }
        if Contains(c[1..], q) {
          ContainsBelow(c[0].first, c[1..], q);
        }
      }
      Canonical(a[0].first, a[1..], c[1..]);
    }
  }

  lemma {:induction false} CanonicalHead(top: nat, a: seq<AckRange>, c: seq<AckRange>)
    requires a != [] && c != [] && Descending(top, a) && Descending(top, c)
    requires forall q :: Contains(a, q) <==> Contains(c, q)
    ensures a[0] == c[0]
  {
    HeadIsMax(top, a, c[0].last);
    HeadIsMax(top, c, a[0].last);
    assert Contains(a, a[0].last) && Contains(c, c[0].last);
    HeadFirst(top, a, c);
    HeadFirst(top, c, a);
  }

  lemma {:induction false} HeadFirst(top: nat, a: seq<AckRange>, c: seq<AckRange>)
    requires a != [] && c != [] && Descending(top, a) && Descending(top, c) && a[0].last == c[0].last
    requires forall q :: Contains(a, q) ==> Contains(c, q)
    ensures c[0].first <= a[0].first
  {
    HeadIsRun(top, c);
    if 0 < c[0].first {
      var q: nat := c[0].first - 1;
      assert !Contains(c, q);
      assert !Contains(a, q);
    }
  }

  lemma {:induction false} HeadIsMax(top: nat, ranges: seq<AckRange>, q: nat)
    requires ranges != [] && Descending(top, ranges)
    ensures Contains(ranges, q) ==> q <= ranges[0].last
  {
    if Contains(ranges[1..], q) {
      ContainsBelow(ranges[0].first, ranges[1..], q);
    }
  }

  /** The number just below the first interval is not in the list. */
  lemma {:induction false} HeadIsRun(top: nat, ranges: seq<AckRange>)
    requires ranges != [] && Descending(top, ranges)
    ensures 0 < ranges[0].first ==> !Contains(ranges, ranges[0].first - 1)
  {
    if 0 < ranges[0].first && Contains(ranges[1..], ranges[0].first - 1) {
      ContainsBelow(ranges[0].first, ranges[1..], ranges[0].first - 1);
    }
  }

  // ----- The history as the source walks it -----

  datatype InsertResult = Recorded | TooManyRanges

  // A position in the list is kept as the intervals above it and the intervals from it on.

  /** Walk down from the highest interval until the place for `p` is found. */
  method InsertWalking(ranges: seq<AckRange>, p: u64) returns (r: seq<AckRange>)
    ensures r == Insert(ranges, p)
  {
    var above, at := [], ranges;
    while at != []
      invariant Insert(ranges, p) == above + Insert(at, p) && ranges == above + at
      decreases |at|
    {
      var x, below := at[0], at[1..];
      if x.first <= p <= x.last {
        return ranges;
      }
      var extended := None;
      if x.last + 1 == p {
        extended := Some(AckRange(x.first, p));
      } else if x.first == p + 1 {
        extended := Some(AckRange(p, x.last));
      }
      if extended.Some? {
        if below != [] && below[0].last + 1 == extended.value.first {
          return above + ([AckRange(below[0].first, extended.value.last)] + below[1..]);
        }
        return above + ([extended.value] + below);
      }
      if x.last < p {
        return above + ([AckRange(p, p)] + at);
      }
      assert above + ([x] + Insert(below, p)) == above + [x] + Insert(below, p);
      above, at := above + [x], below;
    }
    assert above + at == above;
    r := ranges + [AckRange(p, p)];
  }

  /** Walk up from the lowest interval, cutting or removing intervals until one lies above `p`. */
  method DeleteWalking(ranges: seq<AckRange>, p: nat) returns (r: seq<AckRange>)
    requires Descending(TOP, ranges)
    ensures r == Delete(ranges, p)
  {
    var above, below := ranges, [];
    while above != []
      invariant Descending(TOP, above) && Delete(ranges, p) == Delete(above, p) + below
      decreases |above|
    {
      var n := |above| - 1;
      var x := above[n];
      assert above == above[..n] + [x];
      DescendingPrefix(TOP, above, n);
      DeleteAppend(TOP, above[..n], x, p);
      if x.first <= p < x.last {
        below := [AckRange(p + 1, x.last)] + below;
      } else if x.last > p {
        DeleteNone(TOP, above[..n], x, p);
        break;
      }
      above := above[..n];
    }
    r := above + below;
  }

  class History {
    var ranges: seq<AckRange>
    var lowest: nat

    constructor ()
      ensures ranges == [] && lowest == 0
    {
      ranges, lowest := [], 0;
    }

    method ReceivedPacket(p: u64) returns (r: InsertResult)
      requires Descending(TOP, ranges)
      modifies this`ranges
      ensures Descending(TOP, ranges)
      ensures r == if |old(ranges)| >= MAX_TRACKED_RANGES then TooManyRanges else Recorded
      ensures ranges == if r == Recorded then Insert(old(ranges), p) else old(ranges)
    {
      if |ranges| >= MAX_TRACKED_RANGES {
        return TooManyRanges;
      }
      InsertDescending(TOP, ranges, p);
      ranges := InsertWalking(ranges, p);
      r := Recorded;
    }

    method DeleteUpTo(p: nat)
      requires Descending(TOP, ranges)
      modifies this
      ensures Descending(TOP, ranges)
      ensures ranges == Delete(old(ranges), p)
      ensures lowest == Max(old(lowest), p + 1)
    {
      DeleteDescending(TOP, ranges, p);
      lowest := Max(lowest, p + 1);
      ranges := DeleteWalking(ranges, p);
    }
  }

  lemma {:induction false} DeleteAppend(top: nat, a: seq<AckRange>, x: AckRange, p: nat)
    requires Descending(top, a + [x])
    ensures Delete(a + [x], p) == Delete(a, p) + Delete([x], p)
    decreases |a|
  {
    if a == [] {
      assert a + [x] == [x];
    } else {
      assert (a + [x])[1..] == a[1..] + [x];
      DeleteAppend(a[0].first, a[1..], x, p);
      LastIsLower(a[0].first, a[1..], x);
    }
  }

  lemma {:induction false} LastIsLower(top: nat, a: seq<AckRange>, x: AckRange)
    requires Descending(top, a + [x])
    ensures x.first <= x.last && x.last + 1 < top
    decreases |a|
  {
    if a == [] {
      assert a + [x] == [x];
    } else {
      assert (a + [x])[1..] == a[1..] + [x];
      LastIsLower(a[0].first, a[1..], x);
    }
  }

  /** Nothing is deleted if the lowest interval lies above `p`. */
  lemma {:induction false} DeleteNone(top: nat, a: seq<AckRange>, x: AckRange, p: nat)
    requires Descending(top, a + [x]) && p < x.first
    ensures Delete(a + [x], p) == a + [x]
    decreases |a|
  {
    var all := a + [x];
    if a == [] {
      assert all == [x] && all[1..] == [];
    } else {
      assert all[1..] == a[1..] + [x];
      LastIsLower(a[0].first, a[1..], x);
      DeleteNone(a[0].first, a[1..], x, p);
      assert all == [a[0]] + (a[1..] + [x]);
    }
  }
}
