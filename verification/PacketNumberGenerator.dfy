/**
  The packet numbers of one path (quic-go/packet_number_generator.go). The random number drawn for a new
  skip is a parameter, `None` standing for a failure of the random source.
 */
module PacketNumberGenerator {
  import opened Basics

  datatype State = State(averagePeriod: nat, next: nat, nextToSkip: nat)

  function Init(averagePeriod: nat): State {
    State(averagePeriod, 1, 0)
  }

  function NewSkip(st: State, random: Option<u16>): State
    requires st.averagePeriod >= 1
  {
    if random.None? then st
    else st.(nextToSkip := st.next + 2 + Distance(random.value, st.averagePeriod))
  }

  /** How far ahead of the earliest candidate the next skip is placed. */
  function Distance(random: u16, averagePeriod: nat): nat
    requires averagePeriod >= 1
  {
    MulNonNegative(random, averagePeriod - 1);
    random * (averagePeriod - 1) / 32767
  }

  lemma {:induction false} MulNonNegative(a: nat, b: nat)
    ensures a * b >= 0
  {
  }

  function Popped(st: State, random: Option<u16>): (State, nat)
    requires st.averagePeriod >= 1
  {
    var st1 := st.(next := st.next + 1);
    (if st1.next == st1.nextToSkip then NewSkip(st1.(next := st1.next + 1), random) else st1, st.next)
  }

  /** The numbers handed out by successive calls, one random draw being available to each. */
  function Numbers(st: State, randoms: seq<Option<u16>>): (numbers: seq<nat>)
    requires st.averagePeriod >= 1
    ensures |numbers| == |randoms|
    decreases |randoms|
  {
    if randoms == [] then []
    else
      var (st', n) := Popped(st, randoms[0]);
      [n] + Numbers(st', randoms[1..])
  }

  /** From any state the numbers increase by one or two, and two is never followed by two. */
  ghost predicate SkipsAlone(numbers: seq<nat>)
    decreases |numbers|
  {
    |numbers| < 2 ||
    (&& numbers[0] < numbers[1] <= numbers[0] + 2
     && (|numbers| > 2 && numbers[1] == numbers[0] + 2 ==> numbers[2] == numbers[1] + 1)
     && SkipsAlone(numbers[1..]))
  }

  lemma {:induction false} NeverTwoSkips(st: State, randoms: seq<Option<u16>>)
    requires st.averagePeriod >= 1
    ensures SkipsAlone(Numbers(st, randoms))
    decreases |randoms|
  {
    if |randoms| >= 2 {
      var st1 := Popped(st, randoms[0]).0;
      var rest := Numbers(st1, randoms[1..]);
      NeverTwoSkips(st1, randoms[1..]);
      assert Numbers(st, randoms)[1..] == rest;
      assert rest[0] == st1.next;
      if |randoms| >= 3 {
        var st2 := Popped(st1, randoms[1]).0;
        assert rest[1..] == Numbers(st2, randoms[1..][1..]);
        assert rest[1] == st2.next;
      }
    }
  }

  /**
    A generator fresh from its constructor never skips at all: the constructor leaves the number to skip at
    zero, and only a skip draws the next one. The k-th call returns k.
   */
  lemma {:induction false} FreshNeverSkips(averagePeriod: nat, start: nat, randoms: seq<Option<u16>>)
    requires averagePeriod >= 1
    ensures Numbers(State(averagePeriod, start, 0), randoms) == seq(|randoms|, i => start + i)
    decreases |randoms|
  {
    if randoms != [] {
      FreshNeverSkips(averagePeriod, start + 1, randoms[1..]);
      assert seq(|randoms|, i => start + i) == [start] + seq(|randoms| - 1, i => start + 1 + i);
    }
  }

  class Generator {
    const averagePeriod: nat
    var next: nat
    var nextToSkip: nat

    ghost function Contents(): State
      reads this
    {
      State(averagePeriod, next, nextToSkip)
    }

    constructor (averagePeriod: nat)
      ensures Contents() == Init(averagePeriod)
    {
      this.averagePeriod := averagePeriod;
      next, nextToSkip := 1, 0;
    }

    method Peek() returns (n: nat)
      ensures n == next
      ensures averagePeriod >= 1 ==> forall random :: Popped(Contents(), random).1 == n
    {
      n := next;
    }

    method Pop(random: Option<u16>) returns (n: nat)
      requires averagePeriod >= 1
      modifies this
      ensures (Contents(), n) == Popped(old(Contents()), random)
    {
      n := next;
      next := next + 1;
      if next == nextToSkip {
        next := next + 1;
        GenerateNewSkip(random);
      }
    }

    method GenerateNewSkip(random: Option<u16>)
      requires averagePeriod >= 1
      modifies this
      ensures Contents() == NewSkip(old(Contents()), random)
    {
      if random.Some? {
        nextToSkip := next + 2 + Distance(random.value, averagePeriod);
      }
    }
  }
}
