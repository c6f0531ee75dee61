/**
  The coupling of the OLIA congestion control (quic-go/congestion/olia_sender.go, after
  draft-khalili-mptcp-congestion-control): paths with the largest window give up what the best of the other
  paths gain. Which paths are best is taken as given. A map of senders has at most 256 entries.
 */
module Olia {
  import opened Basics

  const MAX_PATHS: nat := 256

  datatype Path = Path(cwnd: nat, best: bool)

  datatype Epsilon = Epsilon(num: int, den: nat)

  function MaxCwnd(paths: seq<Path>): nat {
    if paths == [] then 0 else Max(paths[0].cwnd, MaxCwnd(paths[1..]))
  }

  predicate InM(p: Path, maxCwnd: nat) {
    p.cwnd == maxCwnd
  }

  predicate InBNotM(p: Path, maxCwnd: nat) {
    p.cwnd != maxCwnd && p.best
  }

  function CountM(paths: seq<Path>, maxCwnd: nat): nat {
    if paths == [] then 0 else (if InM(paths[0], maxCwnd) then 1 else 0) + CountM(paths[1..], maxCwnd)
  }

  function CountBNotM(paths: seq<Path>, maxCwnd: nat): nat {
    if paths == [] then 0 else (if InBNotM(paths[0], maxCwnd) then 1 else 0) + CountBNotM(paths[1..], maxCwnd)
  }

  /** The epsilon of a path among `n`, with `m` of them in M and `b` best ones outside M. */
  function EpsilonOf(p: Path, maxCwnd: nat, n: nat, m: nat, b: nat): Epsilon {
    if b == 0 then Epsilon(0, 1)
    else if p.cwnd < maxCwnd && p.best then Epsilon(1, n * b)
    else if p.cwnd == maxCwnd then Epsilon(-1, n * m)
    else Epsilon(0, 1)
  }

  function EpsilonIn(p: Path, paths: seq<Path>): Epsilon {
    var max := MaxCwnd(paths);
    EpsilonOf(p, max, |paths|, CountM(paths, max), CountBNotM(paths, max))
  }

  // ----- Bounds of the counts -----

  lemma {:induction false} MaxCwndReached(paths: seq<Path>)
    ensures forall p :: p in paths ==> p.cwnd <= MaxCwnd(paths)
    ensures paths != [] ==> exists p :: p in paths && p.cwnd == MaxCwnd(paths)
  {
    if paths != [] {
      MaxCwndReached(paths[1..]);
      assert paths == [paths[0]] + paths[1..];
      if paths[0].cwnd >= MaxCwnd(paths[1..]) {
        assert paths[0] in paths;
      } else {
        var p :| p in paths[1..] && p.cwnd == MaxCwnd(paths[1..]);
        assert p in paths;
      }
    }
  }

  lemma {:induction false} CountsBound(paths: seq<Path>, maxCwnd: nat)
    ensures CountM(paths, maxCwnd) + CountBNotM(paths, maxCwnd) <= |paths|
    ensures (exists p :: p in paths && p.cwnd == maxCwnd) ==> CountM(paths, maxCwnd) > 0
  {
    if paths != [] {
      CountsBound(paths[1..], maxCwnd);
      if p :| p in paths && p.cwnd == maxCwnd {
        assert p == paths[0] || p in paths[1..];
      }
    }
  }

  /** If any path gains, both counts are positive and below 256: the one-byte counters have not wrapped around. */
  lemma {:induction false} CountersExact(paths: seq<Path>)
    requires |paths| <= MAX_PATHS
    ensures var max := MaxCwnd(paths);
      && (CountBNotM(paths, max) > 0 ==> 0 < CountM(paths, max) < 256)
      && CountBNotM(paths, max) < 256
  {
    MaxCwndReached(paths);
    CountsBound(paths, MaxCwnd(paths));
  }

  lemma {:induction false} BytesSuffice(p: Path, paths: seq<Path>, m: byte, b: byte)
    requires |paths| <= MAX_PATHS
    requires m == CountM(paths, MaxCwnd(paths)) % 256 && b == CountBNotM(paths, MaxCwnd(paths)) % 256
    ensures EpsilonOf(p, MaxCwnd(paths), |paths|, m, b) == EpsilonIn(p, paths)
  {
    CountersExact(paths);
    if b != 0 {
      assert m == CountM(paths, MaxCwnd(paths)) && b == CountBNotM(paths, MaxCwnd(paths));
    }
  }

  // ----- The sum -----

  function Value(e: Epsilon): real
    requires e.den != 0
  {
    e.num as real / e.den as real
  }

  lemma {:induction false} MulPositive(a: nat, b: nat)
    requires a > 0 && b > 0
    ensures a * b > 0
  {
  }

  /** The epsilons of `rest`, all computed with the same counts, add up to shares of the two groups. */
  function Sum(rest: seq<Path>, maxCwnd: nat, gain: real, loss: real): real {
    if rest == [] then 0.0
    else
      (if InBNotM(rest[0], maxCwnd) then gain else if InM(rest[0], maxCwnd) then -loss else 0.0)
      + Sum(rest[1..], maxCwnd, gain, loss)
  }

  function Times(n: nat, x: real): real {
    if n == 0 then 0.0 else x + Times(n - 1, x)
  }

  lemma {:induction false} TimesIsProduct(n: nat, x: real)
    ensures Times(n, x) == n as real * x
  {
    if n > 0 {
      TimesIsProduct(n - 1, x);
      var y := (n - 1) as real;
      assert n as real == y + 1.0;
      assert (y + 1.0) * x == y * x + x;
    }
  }

  lemma {:induction false} SumByCounts(rest: seq<Path>, maxCwnd: nat, gain: real, loss: real)
    ensures Sum(rest, maxCwnd, gain, loss)
      == Times(CountBNotM(rest, maxCwnd), gain) - Times(CountM(rest, maxCwnd), loss)
  {
    if rest != [] {
      SumByCounts(rest[1..], maxCwnd, gain, loss);
    }
  }

  /** The sum of all epsilons as rational numbers. */
  function SumOfEpsilons(rest: seq<Path>, paths: seq<Path>): real
    requires forall p :: p in rest ==> p in paths
    requires |paths| <= MAX_PATHS
  {
    if rest == [] then 0.0
    else
      EpsilonHasValue(rest[0], paths);
      Value(EpsilonIn(rest[0], paths)) + SumOfEpsilons(rest[1..], paths)
  }

  lemma {:induction false} EpsilonHasValue(p: Path, paths: seq<Path>)
    requires p in paths && |paths| <= MAX_PATHS
    ensures EpsilonIn(p, paths).den != 0
  {
    CountersExact(paths);
    var max := MaxCwnd(paths);
    if CountBNotM(paths, max) > 0 {
      MulPositive(|paths|, CountBNotM(paths, max));
      MulPositive(|paths|, CountM(paths, max));
    }
  }

  lemma {:induction false} SumMatches(rest: seq<Path>, paths: seq<Path>, gain: real, loss: real)
    requires forall p :: p in rest ==> p in paths
    requires |paths| <= MAX_PATHS && CountBNotM(paths, MaxCwnd(paths)) > 0
    requires var max := MaxCwnd(paths);
      && CountM(paths, max) > 0
      && paths != []
      && gain == 1.0 / Product(|paths|, CountBNotM(paths, max)) as real
      && loss == 1.0 / Product(|paths|, CountM(paths, max)) as real
    ensures SumOfEpsilons(rest, paths) == Sum(rest, MaxCwnd(paths), gain, loss)
  {
    if rest != [] {
      MaxCwndReached(paths);
      SumMatches(rest[1..], paths, gain, loss);
      Negated(Product(|paths|, CountM(paths, MaxCwnd(paths))));
    }
  }

  lemma {:induction false} Negated(d: nat)
    requires d > 0
    ensures Value(Epsilon(-1, d)) == -(1.0 / d as real)
  {
  }

  function Product(a: nat, b: nat): (c: nat)
    requires b > 0
    ensures c == a * b
    ensures a > 0 ==> c > 0
  {
    if a > 0 then
      MulPositive(a, b);
      a * b
    else 0
  }

  /** A whole group together has one part in `n`, however many share it. */
  lemma {:induction false} ShareOfGroup(n: nat, k: nat)
    requires n > 0 && k > 0
    ensures Product(n, k) > 0 && Times(k, 1.0 / Product(n, k) as real) == 1.0 / n as real
  {
    var x, y := n as real, k as real;
    TimesIsProduct(k, 1.0 / Product(n, k) as real);
    assert Product(n, k) as real == x * y;
    Cancel(x, y);
  }

  lemma {:induction false} Cancel(x: real, y: real)
    requires x > 0.0 && y > 0.0
    ensures x * y != 0.0 && y * (1.0 / (x * y)) == 1.0 / x
  {
  }

  /** Whatever the windows and whichever paths are best, what some paths gain is what others lose. */
  lemma {:induction false} EpsilonsSumToZero(paths: seq<Path>)
    requires |paths| <= MAX_PATHS
    ensures SumOfEpsilons(paths, paths) == 0.0
  {
    var max := MaxCwnd(paths);
    var m, b := CountM(paths, max), CountBNotM(paths, max);
    if b == 0 {
      NoneGains(paths, paths);
    } else {
      CountersExact(paths);
      CountsBound(paths, max);
      var gain, loss := 1.0 / Product(|paths|, b) as real, 1.0 / Product(|paths|, m) as real;
      assert SumOfEpsilons(paths, paths) == Times(b, gain) - Times(m, loss) by {
        SumMatches(paths, paths, gain, loss);
        SumByCounts(paths, max, gain, loss);
      }
      ShareOfGroup(|paths|, b);
      ShareOfGroup(|paths|, m);
    }
  }

  lemma {:induction false} NoneGains(rest: seq<Path>, paths: seq<Path>)
    requires (forall p :: p in rest ==> p in paths) && |paths| <= MAX_PATHS
    requires CountBNotM(paths, MaxCwnd(paths)) == 0
    ensures SumOfEpsilons(rest, paths) == 0.0
  {
    if rest != [] {
      NoneGains(rest[1..], paths);
    }
  }

  // ----- The senders as objects -----

  class Sender {
    var congestionWindow: nat
    var best: bool
    var epsilonNum: int
    var epsilonDen: nat

    constructor (congestionWindow: nat, best: bool)
      ensures this.congestionWindow == congestionWindow && this.best == best && epsilonNum == 0 && epsilonDen == 1
    {
      this.congestionWindow, this.best, epsilonNum, epsilonDen := congestionWindow, best, 0, 1;
    }

    ghost function View(): Path
      reads this`congestionWindow, this`best
    {
      Path(congestionWindow, best)
    }
  }

  ghost function Views(senders: seq<Sender>): (paths: seq<Path>)
    reads senders`congestionWindow, senders`best
    ensures |paths| == |senders|
    ensures forall i :: 0 <= i < |senders| ==> paths[i] == senders[i].View()
  {
    if senders == [] then [] else [senders[0].View()] + Views(senders[1..])
  }

  method GetMaxCwnd(senders: seq<Sender>) returns (best: nat)
    ensures best == MaxCwnd(Views(senders))
  {
    best := 0;
    var rest := senders;
    while rest != []
      invariant Max(best, MaxCwnd(Views(rest))) == MaxCwnd(Views(senders))
      decreases |rest|
    {
      best := Max(best, rest[0].congestionWindow);
      rest := rest[1..];
    }
  }

  /** The sizes of the two groups, counted in one byte each. */
  method CountGroups(senders: seq<Sender>, maxCwnd: nat) returns (m: byte, bNotM: byte)
    ensures m == CountM(Views(senders), maxCwnd) % 256 && bNotM == CountBNotM(Views(senders), maxCwnd) % 256
  {
    var exactM, exactB := 0, 0;
    m, bNotM := 0, 0;
    var rest := senders;
    while rest != []
      invariant exactM + CountM(Views(rest), maxCwnd) == CountM(Views(senders), maxCwnd)
      invariant exactB + CountBNotM(Views(rest), maxCwnd) == CountBNotM(Views(senders), maxCwnd)
      invariant exactM >= 0 && exactB >= 0 && m == exactM % 256 && bNotM == exactB % 256
      decreases |rest|
    {
      if rest[0].congestionWindow == maxCwnd {
        m, exactM := (m + 1) % 256, exactM + 1;
      } else if rest[0].best {
        bNotM, exactB := (bNotM + 1) % 256, exactB + 1;
      }
      rest := rest[1..];
    }
  }

  ghost predicate HasEpsilon(s: Sender, paths: seq<Path>)
    reads s
  {
    Epsilon(s.epsilonNum, s.epsilonDen) == EpsilonIn(s.View(), paths)
  }

  /** One sender is given its epsilon, from the counts over all of them. */
  method GiveEpsilon(s: Sender, maxCwnd: nat, n: nat, m: byte, bNotM: byte, ghost paths: seq<Path>)
    requires |paths| == n <= MAX_PATHS && maxCwnd == MaxCwnd(paths)
    requires m == CountM(paths, maxCwnd) % 256 && bNotM == CountBNotM(paths, maxCwnd) % 256
    modifies s`epsilonNum, s`epsilonDen
    ensures HasEpsilon(s, paths)
  {
    BytesSuffice(s.View(), paths, m, bNotM);
    if bNotM == 0 {
      s.epsilonNum, s.epsilonDen := 0, 1;
    } else if s.congestionWindow < maxCwnd && s.best {
      s.epsilonNum, s.epsilonDen := 1, n * bNotM;
    } else if s.congestionWindow == maxCwnd {
      s.epsilonNum, s.epsilonDen := -1, n * m;
    } else {
      s.epsilonNum, s.epsilonDen := 0, 1;
    }
  }

  /** The sum of the epsilons that the senders hold. */
  ghost function SumOfFields(senders: seq<Sender>): real
    reads senders
  {
    if senders == [] then 0.0
    else
      (if senders[0].epsilonDen == 0 then 0.0 else Value(Epsilon(senders[0].epsilonNum, senders[0].epsilonDen)))
      + SumOfFields(senders[1..])
  }

  lemma {:induction false} FieldsSum(rest: seq<Sender>, paths: seq<Path>)
    requires |paths| <= MAX_PATHS
    requires forall i :: 0 <= i < |rest| ==> HasEpsilon(rest[i], paths)
    requires forall p :: p in Views(rest) ==> p in paths
    ensures SumOfFields(rest) == SumOfEpsilons(Views(rest), paths)
  {
    if rest != [] {
      assert Views(rest)[1..] == Views(rest[1..]);
      assert Views(rest)[0] in Views(rest);
      EpsilonHasValue(rest[0].View(), paths);
      FieldsSum(rest[1..], paths);
    }
  }

  /** Every sender is given its epsilon among all of them, and what they are given adds up to nothing. */
  method GetEpsilon(senders: seq<Sender>)
    requires |senders| <= MAX_PATHS
    modifies senders`epsilonNum, senders`epsilonDen
    ensures forall i :: 0 <= i < |senders| ==> HasEpsilon(senders[i], Views(senders))
    ensures SumOfFields(senders) == 0.0
  {
    var maxCwnd := GetMaxCwnd(senders);
    var m, bNotM := CountGroups(senders, maxCwnd);
    ghost var paths := Views(senders);
    GiveEpsilons(senders, maxCwnd, m, bNotM, paths);
    FieldsSum(senders, paths);
    EpsilonsSumToZero(paths);
  }

  method GiveEpsilons(senders: seq<Sender>, maxCwnd: nat, m: byte, bNotM: byte, ghost paths: seq<Path>)
    requires |paths| == |senders| <= MAX_PATHS && maxCwnd == MaxCwnd(paths)
    requires m == CountM(paths, maxCwnd) % 256 && bNotM == CountBNotM(paths, maxCwnd) % 256
    modifies senders`epsilonNum, senders`epsilonDen
    ensures forall i :: 0 <= i < |senders| ==> HasEpsilon(senders[i], paths)
  {
    for i := 0 to |senders|
      invariant forall j :: 0 <= j < i ==> HasEpsilon(senders[j], paths)
    {
      GiveEpsilon(senders[i], maxCwnd, |senders|, m, bNotM, paths);
    }
  }
}
