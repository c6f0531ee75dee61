/**
  Choosing a path for the next packet (quic-go/scheduler.go): by lowest smoothed RTT, and the BLEST and ECF
  selectors. The order in which the map of paths is walked is a parameter.
 */
module Scheduler {
  import opened Basics

  datatype Path = Path(id: byte, rtt: nat, sendingAllowed: bool, potentiallyFailed: bool)

  /** Packets sent per path; a path that is not there counts as zero. */
  type Quotas = map<byte, nat>

  const INITIAL_PATH: byte := 0

  function Quota(quotas: Quotas, id: byte): nat {
    if id in quotas then quotas[id] else 0
  }

  predicate Eligible(p: Path, hasRetransmission: bool) {
    (hasRetransmission || p.sendingAllowed) && !p.potentiallyFailed && p.id != INITIAL_PATH
  }

  // ----- The order of preference -----

  /**
    `a` is at least as good as `b`: a probed path of lower RTT, or if `b` is unprobed, a probed path or a lower
    quota.
   */
  predicate AtLeast(quotas: Quotas, a: Path, b: Path) {
    if b.rtt != 0 then a.rtt != 0 && a.rtt <= b.rtt
    else a.rtt != 0 || Quota(quotas, a.id) <= Quota(quotas, b.id)
  }

  /** Some eligible path at least as good as all others, and nothing only if no path is eligible. */
  ghost predicate IsChoice(quotas: Quotas, paths: set<Path>, hasRetransmission: bool, r: Option<Path>) {
    match r
    case None => forall p :: p in paths ==> !Eligible(p, hasRetransmission)
    case Some(best) =>
      && best in paths && Eligible(best, hasRetransmission)
      && forall p :: p in paths && Eligible(p, hasRetransmission) ==> AtLeast(quotas, best, p)
  }

  // ----- The walk over the paths -----

  /** Whether the walk gives up the path it holds for the next one. */
  predicate Replaces(quotas: Quotas, held: Option<Path>, p: Path) {
    || held.None?
    || (p.rtt == 0 && held.value.rtt == 0 && Quota(quotas, p.id) <= Quota(quotas, held.value.id))
    || (p.rtt != 0 && (held.value.rtt == 0 || p.rtt < held.value.rtt))
  }

  function Next(quotas: Quotas, held: Option<Path>, p: Path, hasRetransmission: bool): Option<Path> {
    if Eligible(p, hasRetransmission) && Replaces(quotas, held, p) then Some(p) else held
  }

  function Walk(quotas: Quotas, held: Option<Path>, order: seq<Path>, hasRetransmission: bool): Option<Path>
    decreases |order|
  {
    if order == [] then held
    else Walk(quotas, Next(quotas, held, order[0], hasRetransmission), order[1..], hasRetransmission)
  }

  function Members(order: seq<Path>): set<Path> {
    set p | p in order
  }

  lemma {:induction false} WalkChooses(
    quotas: Quotas, seen: set<Path>, held: Option<Path>, order: seq<Path>, hasRetransmission: bool)
    requires IsChoice(quotas, seen, hasRetransmission, held)
    ensures IsChoice(quotas, seen + Members(order), hasRetransmission, Walk(quotas, held, order, hasRetransmission))
    decreases |order|
  {
    if order == [] {
      assert seen + Members(order) == seen;
    } else {
      var held' := Next(quotas, held, order[0], hasRetransmission);
      assert IsChoice(quotas, seen + {order[0]}, hasRetransmission, held');
      WalkChooses(quotas, seen + {order[0]}, held', order[1..], hasRetransmission);
      assert order == [order[0]] + order[1..];
      assert seen + {order[0]} + Members(order[1..]) == seen + Members(order);
    }
  }

  /** Outside the early returns: whatever the order, nothing is chosen only if no path is eligible, else a best one. */
  lemma {:induction false} ChoiceIsBest(quotas: Quotas, order: seq<Path>, hasRetransmission: bool)
    ensures IsChoice(quotas, Members(order), hasRetransmission, Walk(quotas, None, order, hasRetransmission))
  {
    WalkChooses(quotas, {}, None, order, hasRetransmission);
    assert {} + Members(order) == Members(order);
  }

  /** Two walks over the same paths in different orders choose equally good paths. */
  lemma {:induction false} OrderDoesNotMatter(
    quotas: Quotas, order: seq<Path>, other: seq<Path>, hasRetransmission: bool)
    requires Members(order) == Members(other)
    ensures var a, b := Walk(quotas, None, order, hasRetransmission), Walk(quotas, None, other, hasRetransmission);
      && (a.None? <==> b.None?)
      && (a.Some? ==> a.value.rtt == b.value.rtt)
      && (a.Some? && a.value.rtt == 0 ==> Quota(quotas, a.value.id) == Quota(quotas, b.value.id))
  {
    ChoiceIsBest(quotas, order, hasRetransmission);
    ChoiceIsBest(quotas, other, hasRetransmission);
  }

  // ----- The early returns -----

  /** With a single path there is no choice. */
  function Single(order: seq<Path>, hasRetransmission: bool): Option<Path>
    requires |order| <= 1
  {
    if order == [] || order[0].id != INITIAL_PATH || (!hasRetransmission && !order[0].sendingAllowed) then None
    else Some(order[0])
  }

  /** A retransmission from an unprobed path prefers any other path that has sent fewer packets. */
  function FewerPackets(quotas: Quotas, order: seq<Path>, from: Path): Option<Path> {
    if order == [] then None
    else if order[0].id != INITIAL_PATH && order[0].id != from.id && Quota(quotas, order[0].id) < Quota(quotas, from.id)
    then Some(order[0])
    else FewerPackets(quotas, order[1..], from)
  }

  /** `from` is the path of a packet whose stream data are retransmitted, if there is one. */
  function Early(quotas: Quotas, order: seq<Path>, hasRetransmission: bool, from: Option<Path>): Option<Path> {
    if hasRetransmission && from.Some? && from.value.rtt == 0 then FewerPackets(quotas, order, from.value) else None
  }

  function Selected(quotas: Quotas, order: seq<Path>, hasRetransmission: bool, from: Option<Path>): Option<Path> {
    if |order| <= 1 then Single(order, hasRetransmission)
    else if Early(quotas, order, hasRetransmission, from).Some? then Early(quotas, order, hasRetransmission, from)
    else Walk(quotas, None, order, hasRetransmission)
  }

  method FindFewerPackets(quotas: Quotas, order: seq<Path>, from: Path) returns (r: Option<Path>)
    ensures r == FewerPackets(quotas, order, from)
  {
    var rest := order;
    while rest != []
      invariant FewerPackets(quotas, rest, from) == FewerPackets(quotas, order, from)
      decreases |rest|
    {
      var p := rest[0];
      if p.id != INITIAL_PATH && p.id != from.id && Quota(quotas, p.id) < Quota(quotas, from.id) {
        return Some(p);
      }
      rest := rest[1..];
    }
    r := None;
  }

  /** Entries of zero that the walk adds change no quota. */
  ghost predicate SameQuotas(a: Quotas, b: Quotas) {
    forall id :: Quota(a, id) == Quota(b, id)
  }

  // ----- The selectors -----

  method SelectPathLowLatency(quotas: Quotas, order: seq<Path>, hasRetransmission: bool, from: Option<Path>)
    returns (r: Option<Path>, quotas': Quotas)
    ensures r == Selected(quotas, order, hasRetransmission, from) && SameQuotas(quotas, quotas')
  {
    quotas' := quotas;
    if |order| <= 1 {
      return Single(order, hasRetransmission), quotas';
    }
    if hasRetransmission && from.Some? && from.value.rtt == 0 {
      r := FindFewerPackets(quotas, order, from.value);
      if r.Some? {
        return;
      }
    }
    r, quotas' := LowestRTT(quotas, order, hasRetransmission);
  }

  method LowestRTT(quotas: Quotas, order: seq<Path>, hasRetransmission: bool)
    returns (selected: Option<Path>, quotas': Quotas)
    ensures selected == Walk(quotas, None, order, hasRetransmission) && SameQuotas(quotas, quotas')
  {
    quotas', selected := quotas, None;
    var lowerRTT := 0;
    var rest := order;
    while rest != []
      invariant Walk(quotas, selected, rest, hasRetransmission) == Walk(quotas, None, order, hasRetransmission)
      invariant lowerRTT == if selected.None? then 0 else selected.value.rtt
      invariant SameQuotas(quotas, quotas')
      decreases |rest|
    {
      var p := rest[0];
      rest := rest[1..];
      if (!hasRetransmission && !p.sendingAllowed) || p.potentiallyFailed || p.id == INITIAL_PATH {
        continue;
      }
      if lowerRTT != 0 && p.rtt == 0 {
        continue;
      }
      if p.rtt == 0 {
        if p.id !in quotas' {
          quotas' := quotas'[p.id := 0];
        }
        if selected.Some? && quotas'[p.id] > Quota(quotas', selected.value.id) {
          continue;
        }
      }
      if p.rtt != 0 && lowerRTT != 0 && selected.Some? && p.rtt >= lowerRTT {
        continue;
      }
      lowerRTT := p.rtt;
      selected := Some(p);
    }
  }

  /**
    BLEST and ECF also look for a second best path, and decide by formulas of their own whether to wait for
    the best one; `wait` stands for the outcome of the formula. Since the best path may always be used, both
    return what the lowest RTT selector returns, and the formulas are never consulted.
   */
  method SelectWithSecondBest(
    quotas: Quotas, order: seq<Path>, hasRetransmission: bool, from: Option<Path>,
    wait: (Option<Path>, Option<Path>) -> bool)
    returns (r: Option<Path>, quotas': Quotas)
    ensures r == Selected(quotas, order, hasRetransmission, from) && SameQuotas(quotas, quotas')
  {
    quotas' := quotas;
    if |order| <= 1 {
      return Single(order, hasRetransmission), quotas';
    }
    if hasRetransmission && from.Some? && from.value.rtt == 0 {
      r := FindFewerPackets(quotas, order, from.value);
      if r.Some? {
        return;
      }
    }
    var best, second;
    best, second, quotas' := BestTwo(quotas, order, hasRetransmission);
    if best.None? {
      return second, quotas';
    }
    if hasRetransmission || best.value.sendingAllowed {
      return best, quotas';
    }
    if second.None? || wait(best, second) {
      return None, quotas';
    }
    return second, quotas';
  }

  method BestTwo(quotas: Quotas, order: seq<Path>, hasRetransmission: bool)
    returns (best: Option<Path>, second: Option<Path>, quotas': Quotas)
    ensures best == Walk(quotas, None, order, hasRetransmission) && SameQuotas(quotas, quotas')
    ensures best.None? ==> second.None?
    ensures best.Some? ==> Eligible(best.value, hasRetransmission)
  {
    quotas', best, second := quotas, None, None;
    var lowerRTT, secondLowerRTT := 0, 0;
    var rest := order;
    while rest != []
      invariant Walk(quotas, best, rest, hasRetransmission) == Walk(quotas, None, order, hasRetransmission)
      invariant lowerRTT == if best.None? then 0 else best.value.rtt
      invariant SameQuotas(quotas, quotas')
      invariant best.None? ==> second.None?
      invariant best.Some? ==> Eligible(best.value, hasRetransmission)
      decreases |rest|
    {
      var p := rest[0];
      rest := rest[1..];
      if (!hasRetransmission && !p.sendingAllowed) || p.potentiallyFailed || p.id == INITIAL_PATH {
        continue;
      }
      if lowerRTT != 0 && p.rtt == 0 {
        continue;
      }
      if p.rtt == 0 {
        if p.id !in quotas' {
          quotas' := quotas'[p.id := 0];
        }
        if best.Some? && quotas'[p.id] > Quota(quotas', best.value.id) {
          continue;
        }
      }
      if p.rtt >= lowerRTT {
        if (secondLowerRTT == 0 || p.rtt < secondLowerRTT) && p.sendingAllowed {
          secondLowerRTT := p.rtt;
          second := Some(p);
        }
        if p.rtt != 0 && lowerRTT != 0 && best.Some? {
          continue;
        }
      }
      lowerRTT := p.rtt;
      best := Some(p);
    }
  }
}
