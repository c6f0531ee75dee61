/**
  Any run of the linked list's operations (quic-go/internal/utils/byteinterval_linkedlist.go), over two lists that
  share no element. Elements are given by list and position; an element that is not there is not passed on.
 */
module RingListRun {
  import opened Basics
  import opened RingList

  /** An element of the list itself, or of the other one. */
  datatype Place = Own(k: nat) | Foreign(k: nat)

  datatype Operation =
    | Clear
    | AddFront(v: ByteInterval)
    | AddBack(v: ByteInterval)
    | AddBefore(v: ByteInterval, mark: Place)
    | AddAfter(v: ByteInterval, mark: Place)
    | Take(e: Place)
    | ToFront(e: Place)
    | ToBack(e: Place)
    | ToBefore(e: Place, mark: Place)
    | ToAfter(e: Place, mark: Place)
    | AppendList(itself: bool)
    | PrependList(itself: bool)

  // ----- On sequences of values -----

  /** The place is a position of the list itself: elements of other lists are left alone. */
  predicate Within(p: Place, n: nat) {
    p.Own? && p.k < n
  }

  /** The value at position `k` brought to one of the ends. */
  function MovedToEnd<T>(s: seq<T>, k: nat, back: bool): seq<T>
    requires k < |s|
  {
    if back then RemoveAt(s, k) + [s[k]] else [s[k]] + RemoveAt(s, k)
  }

  /** The value at position `k` moved next to the one at position `m`. */
  function MovedTo<T>(s: seq<T>, k: nat, m: nat, after: bool): (r: seq<T>)
    requires k < |s| && m < |s|
    ensures |r| == |s|
  {
    if k == m then s else InsertAt(RemoveAt(s, k), Landing(k, m, after), s[k])
  }

  /** Where the value goes, once it is taken out. */
  function Landing(k: nat, m: nat, after: bool): nat
    requires k != m
  {
    (if m < k then m else m - 1) + (if after then 1 else 0)
  }

  function Brought<T>(s: seq<T>, p: Place, q: Place, after: bool): seq<T> {
    if Within(p, |s|) && Within(q, |s|) then MovedTo(s, p.k, q.k, after) else s
  }

  /** What an operation makes of the values of a list, next to those of the other list. */
  function Applied(s: seq<ByteInterval>, other: seq<ByteInterval>, op: Operation): seq<ByteInterval> {
    match op
    case Clear => []
    case AddFront(v) => [v] + s
    case AddBack(v) => s + [v]
    case AddBefore(v, p) => if Within(p, |s|) then InsertAt(s, p.k, v) else s
    case AddAfter(v, p) => if Within(p, |s|) then InsertAt(s, p.k + 1, v) else s
    case Take(p) => if Within(p, |s|) then RemoveAt(s, p.k) else s
    case ToFront(p) => if Within(p, |s|) then MovedToEnd(s, p.k, false) else s
    case ToBack(p) => if Within(p, |s|) then MovedToEnd(s, p.k, true) else s
    case ToBefore(p, q) => Brought(s, p, q, false)
    case ToAfter(p, q) => Brought(s, p, q, true)
    case AppendList(itself) => s + if itself then s else other
    case PrependList(itself) => (if itself then s else other) + s
  }

  /** One operation on the first or on the second list. */
  datatype Step = Step(onFirst: bool, op: Operation)

  function Stepped(a: seq<ByteInterval>, b: seq<ByteInterval>, step: Step): (seq<ByteInterval>, seq<ByteInterval>) {
    if step.onFirst then (Applied(a, b, step.op), b) else (a, Applied(b, a, step.op))
  }

  function Folded(a: seq<ByteInterval>, b: seq<ByteInterval>, steps: seq<Step>): (seq<ByteInterval>, seq<ByteInterval>)
    decreases |steps|
  {
    if steps == [] then (a, b)
    else
      var (a', b') := Stepped(a, b, steps[0]);
      Folded(a', b', steps[1..])
  }

  predicate IsMove(op: Operation) {
    op.ToFront? || op.ToBack? || op.ToBefore? || op.ToAfter?
  }

  lemma {:induction false} RemoveCount<T>(s: seq<T>, k: nat)
    requires k < |s|
    ensures multiset(s) == multiset(RemoveAt(s, k)) + multiset{s[k]}
  {
    assert s == s[..k] + [s[k]] + s[k + 1..];
  }

  lemma {:induction false} InsertCount<T>(s: seq<T>, k: nat, x: T)
    requires k <= |s|
    ensures multiset(InsertAt(s, k, x)) == multiset(s) + multiset{x}
  {
    assert s == s[..k] + s[k..];
  }

  lemma {:induction false} MovedCount<T>(s: seq<T>, k: nat, m: nat, after: bool)
    requires k < |s| && m < |s|
    ensures multiset(MovedTo(s, k, m, after)) == multiset(s)
  {
    if k != m {
      var rest, j := RemoveAt(s, k), Landing(k, m, after);
      assert multiset(s) == multiset(rest) + multiset{s[k]} by {
        RemoveCount(s, k);
      }
      assert multiset(InsertAt(rest, j, s[k])) == multiset(rest) + multiset{s[k]} by {
        InsertCount(rest, j, s[k]);
      }
    }
  }

  lemma {:induction false} EndsCount<T>(s: seq<T>, k: nat)
    requires k < |s|
    ensures multiset([s[k]] + RemoveAt(s, k)) == multiset(s) == multiset(RemoveAt(s, k) + [s[k]])
  {
    RemoveCount(s, k);
  }

  /** Moving neither loses nor repeats a value. */
  lemma {:induction false} MovesPermute(s: seq<ByteInterval>, other: seq<ByteInterval>, op: Operation)
    requires IsMove(op)
    ensures multiset(Applied(s, other, op)) == multiset(s)
  {
    if Within(op.e, |s|) {
      if op.ToFront? || op.ToBack? {
        EndsCount(s, op.e.k);
      } else if Within(op.mark, |s|) {
        MovedCount(s, op.e.k, op.mark.k, op.ToAfter?);
      }
    }
  }

  // ----- The values of a list -----

  lemma {:induction false} SplitValues(nodes: seq<Element>, k: nat)
    requires k <= |nodes|
    ensures Values(nodes)[..k] == Values(nodes[..k]) && Values(nodes)[k..] == Values(nodes[k..])
  {
    assert nodes == nodes[..k] + nodes[k..];
    ValuesJoin(nodes[..k], nodes[k..]);
  }

  lemma {:induction false} InsertValues(nodes: seq<Element>, k: nat, e: Element)
    requires k <= |nodes|
    ensures Values(InsertAt(nodes, k, e)) == InsertAt(Values(nodes), k, e.value)
  {
    SplitValues(nodes, k);
    ValuesJoin(nodes[..k], [e]);
    ValuesJoin(nodes[..k] + [e], nodes[k..]);
  }

  lemma {:induction false} RemoveValues(nodes: seq<Element>, k: nat)
    requires k < |nodes|
    ensures Values(RemoveAt(nodes, k)) == RemoveAt(Values(nodes), k)
  {
    SplitValues(nodes, k);
    SplitValues(nodes, k + 1);
    ValuesJoin(nodes[..k], nodes[k + 1..]);
  }

  /** Moving by element is moving by position. */
  lemma {:induction false} MovedByPosition(nodes: seq<Element>, k: nat, m: nat, after: bool)
    requires Distinct(nodes) && k < |nodes| && m < |nodes| && k != m
    ensures nodes[k] != nodes[m]
    ensures Moved(nodes, nodes[k], nodes[m], after) == MovedTo(nodes, k, m, after)
  {
    assert Differ(nodes, if k < m then k else m, if k < m then m else k);
    OnlyIndex(nodes, k);
    var rest := RemoveAt(nodes, k);
    RemoveDistinct(nodes, k);
    var m' := if m < k then m else m - 1;
    assert rest[m'] == nodes[m];
    OnlyIndex(rest, m');
  }

  lemma {:induction false} MoveValues(nodes: seq<Element>, k: nat, m: nat, after: bool)
    requires k < |nodes| && m < |nodes|
    ensures Values(MovedTo(nodes, k, m, after)) == MovedTo(Values(nodes), k, m, after)
  {
    if k != m {
      RemoveValues(nodes, k);
      ValuesAt(nodes, k);
      InsertValues(RemoveAt(nodes, k), Landing(k, m, after), nodes[k]);
    }
  }

  /** Both lists are well-formed and share no element. */
  ghost predicate Apart(l: List, o: List)
    reads l, o, l.repr, o.repr
  {
    l.Valid() && o.Valid() && l != o && l.repr !! o.repr
  }

  // ----- Finding an element -----

  /** The element at a position, found by walking from the front. */
  method ElementAt(l: List, k: nat) returns (e: Element?)
    requires l.Valid()
    ensures e == if k < |l.nodes| then l.nodes[k] else null
  {
    e := l.Front();
    var i: nat := 0;
    while i < k && e != null
      invariant i <= k && e == if i < |l.nodes| then l.nodes[i] else null
    {
      assert l.Member(i);
      e := e.Next(i);
      i := i + 1;
    }
  }

  /** The element stands at position `k` of the list, or belongs to another one. */
  ghost predicate Stands(l: List, e: Element, k: nat, own: bool)
    reads l, e
  {
    if own then k < |l.nodes| && l.nodes[k] == e && e.list == l else e.list != l
  }

  /** An element belongs to the list that it is found in. */
  method Find(l: List, o: List, p: Place) returns (e: Element?)
    requires Apart(l, o)
    ensures e != null ==> Stands(l, e, p.k, Within(p, |l.nodes|))
    ensures e == null ==> !Within(p, |l.nodes|)
  {
    match p {
      case Own(k) =>
        e := ElementAt(l, k);
        if e != null {
          assert l.Member(k);
        }
      case Foreign(k) =>
        e := ElementAt(o, k);
        if e != null {
          assert o.Member(k);
        }
    }
  }

  // ----- Performing -----

  /** What one operation does to the list, and that it leaves the other one alone. */
  twostate predicate Performed(l: List, o: List, values: seq<ByteInterval>)
    reads l, o, l.repr, o.repr, l.nodes, o.nodes
  {
    && Apart(l, o) && fresh(l.repr - old(l.repr)) && Values(l.nodes) == values
    && o.nodes == old(o.nodes) && o.repr == old(o.repr) && Values(o.nodes) == old(Values(o.nodes))
  }

  method AddFrontOf(l: List, o: List, v: ByteInterval)
    requires Apart(l, o)
    modifies l, l.repr`next, l.repr`prev, l.repr`list
    ensures Performed(l, o, [v] + old(Values(l.nodes)))
  {
    ghost var before := l.nodes;
    var e := l.PushFront(v);
    ValuesJoin([e], before);
  }

  method AddBackOf(l: List, o: List, v: ByteInterval)
    requires Apart(l, o)
    modifies l, l.repr`next, l.repr`prev, l.repr`list
    ensures Performed(l, o, old(Values(l.nodes)) + [v])
  {
    ghost var before := l.nodes;
    var e := l.PushBack(v);
    ValuesJoin(before, [e]);
  }

  method AddBeforeMark(l: List, o: List, v: ByteInterval, mark: Element, ghost k: nat, ghost own: bool)
    requires Apart(l, o) && Stands(l, mark, k, own)
    modifies l, l.repr`next, l.repr`prev, l.repr`list
    ensures Performed(l, o, if own then InsertAt(old(Values(l.nodes)), k, v) else old(Values(l.nodes)))
  {
    ghost var before := l.nodes;
    var e := l.InsertBefore(v, mark);
    if own {
      OnlyIndex(before, k);
      InsertValues(before, k, e);
    }
  }

  method AddAfterMark(l: List, o: List, v: ByteInterval, mark: Element, ghost k: nat, ghost own: bool)
    requires Apart(l, o) && Stands(l, mark, k, own)
    modifies l, l.repr`next, l.repr`prev, l.repr`list
    ensures Performed(l, o, if own then InsertAt(old(Values(l.nodes)), k + 1, v) else old(Values(l.nodes)))
  {
    ghost var before := l.nodes;
    var e := l.InsertAfter(v, mark);
    if own {
      OnlyIndex(before, k);
      InsertValues(before, k + 1, e);
    }
  }

  method TakeOut(l: List, o: List, e: Element, ghost k: nat, ghost own: bool)
    requires Apart(l, o) && Stands(l, e, k, own)
    modifies l, l.repr`next, l.repr`prev, l.repr`list
    ensures Performed(l, o, if own then RemoveAt(old(Values(l.nodes)), k) else old(Values(l.nodes)))
  {
    ghost var before := l.nodes;
    var v := l.Remove(e);
    if own {
      OnlyIndex(before, k);
      RemoveValues(before, k);
    }
  }

  lemma {:induction false} EndValues(nodes: seq<Element>, k: nat, back: bool)
    requires k < |nodes|
    ensures Values(MovedToEnd(nodes, k, back)) == MovedToEnd(Values(nodes), k, back)
  {
    RemoveValues(nodes, k);
    ValuesAt(nodes, k);
    if back {
      ValuesJoin(RemoveAt(nodes, k), [nodes[k]]);
    } else {
      ValuesJoin([nodes[k]], RemoveAt(nodes, k));
    }
  }

  method MoveToEnd(l: List, e: Element, ghost k: nat, ghost own: bool, back: bool)
    requires l.Valid() && Stands(l, e, k, own)
    modifies l, l.repr`next, l.repr`prev, l.repr`list
    ensures l.Valid() && l.repr == old(l.repr)
    ensures l.nodes == if own then MovedToEnd(old(l.nodes), k, back) else old(l.nodes)
  {
    if own {
      OnlyIndex(l.nodes, k);
    }
    if back {
      l.MoveToBack(e);
    } else {
      l.MoveToFront(e);
    }
  }

  method BringToEnd(l: List, o: List, e: Element, ghost k: nat, ghost own: bool, back: bool)
    requires Apart(l, o) && Stands(l, e, k, own)
    modifies l, l.repr`next, l.repr`prev, l.repr`list
    ensures Performed(l, o, if own then MovedToEnd(old(Values(l.nodes)), k, back) else old(Values(l.nodes)))
  {
    ghost var before := l.nodes;
    MoveToEnd(l, e, k, own, back);
    if own {
      EndValues(before, k, back);
    }
  }

  /** The nodes once an element is moved next to another one of the list. */
  ghost function MovedNodes(nodes: seq<Element>, k: nat, m: nat, own: bool, after: bool): seq<Element>
    requires own ==> k < |nodes| && m < |nodes|
  {
    if own then MovedTo(nodes, k, m, after) else nodes
  }

  method MoveNext(l: List, e: Element, mark: Element, ghost k: nat, ghost m: nat, ghost own: bool, after: bool)
    requires l.Valid() && (e.list == l ==> e in l.nodes) && (mark.list == l ==> mark in l.nodes)
    requires if own then Stands(l, e, k, true) && Stands(l, mark, m, true) else e.list != l || mark.list != l
    modifies l, l.repr`next, l.repr`prev, l.repr`list
    ensures l.Valid() && l.repr == old(l.repr) && l.nodes == MovedNodes(old(l.nodes), k, m, own, after)
  {
    if own && k != m {
      MovedByPosition(l.nodes, k, m, after);
    }
    if own && e == mark {
      OnlyIndex(l.nodes, k);
      OnlyIndex(l.nodes, m);
    }
    if after {
      l.MoveAfter(e, mark);
    } else {
      l.MoveBefore(e, mark);
    }
  }

  lemma {:induction false} BroughtValues(nodes: seq<Element>, p: Place, q: Place, after: bool)
    ensures Values(Brought(nodes, p, q, after)) == Brought(Values(nodes), p, q, after)
  {
    if Within(p, |nodes|) && Within(q, |nodes|) {
      MoveValues(nodes, p.k, q.k, after);
    }
  }

  method Bring(l: List, o: List, p: Place, q: Place, after: bool)
    requires Apart(l, o)
    modifies l, l.repr`next, l.repr`prev, l.repr`list
    ensures l.Valid() && l.repr == old(l.repr) && l.nodes == Brought(old(l.nodes), p, q, after)
  {
    var e := Find(l, o, p);
    var mark := Find(l, o, q);
    if e != null && mark != null {
      MoveNext(l, e, mark, p.k, q.k, Within(p, |l.nodes|) && Within(q, |l.nodes|), after);
    }
  }

  method AppendTo(l: List, other: List)
    requires l.Valid() && other.Valid() && l.Beside(other)
    modifies l, l.repr`next, l.repr`prev, l.repr`list
    ensures l.Valid() && other.Valid() && l.Beside(other) && fresh(l.repr - old(l.repr))
    ensures other != l ==> other.nodes == old(other.nodes) && other.repr == old(other.repr)
    ensures Values(l.nodes) == old(Values(l.nodes)) + old(Values(other.nodes))
  {
    ghost var before := l.nodes;
    var copies := l.PushBackList(other);
    ValuesJoin(before, copies);
  }

  method PrependTo(l: List, other: List)
    requires l.Valid() && other.Valid() && l.Beside(other)
    modifies l, l.repr`next, l.repr`prev, l.repr`list
    ensures l.Valid() && other.Valid() && l.Beside(other) && fresh(l.repr - old(l.repr))
    ensures other != l ==> other.nodes == old(other.nodes) && other.repr == old(other.repr)
    ensures Values(l.nodes) == old(Values(other.nodes)) + old(Values(l.nodes))
  {
    ghost var before := l.nodes;
    var copies := l.PushFrontList(other);
    ValuesJoin(copies, before);
  }

  method AddBackList(l: List, o: List, itself: bool)
    requires Apart(l, o)
    modifies l, l.repr`next, l.repr`prev, l.repr`list
    ensures Performed(l, o, old(Values(l.nodes)) + if itself then old(Values(l.nodes)) else old(Values(o.nodes)))
  {
    if itself {
      AppendTo(l, l);
    } else {
      AppendTo(l, o);
    }
  }

  method AddFrontList(l: List, o: List, itself: bool)
    requires Apart(l, o)
    modifies l, l.repr`next, l.repr`prev, l.repr`list
    ensures Performed(l, o, (if itself then old(Values(l.nodes)) else old(Values(o.nodes))) + old(Values(l.nodes)))
  {
    if itself {
      PrependTo(l, l);
    } else {
      PrependTo(l, o);
    }
  }

  /** The operations that take one element. */
  predicate TakesOne(op: Operation) {
    op.AddBefore? || op.AddAfter? || op.Take? || op.ToFront? || op.ToBack?
  }

  function PlaceOf(op: Operation): Place
    requires TakesOne(op)
  {
    if op.AddBefore? || op.AddAfter? then op.mark else op.e
  }

  method PerformOn(l: List, o: List, op: Operation, e: Element)
    requires Apart(l, o) && TakesOne(op) && Stands(l, e, PlaceOf(op).k, Within(PlaceOf(op), |l.nodes|))
    modifies l, l.repr`next, l.repr`prev, l.repr`list
    ensures Performed(l, o, Applied(old(Values(l.nodes)), old(Values(o.nodes)), op))
  {
    match op {
      case AddBefore(v, p) => AddBeforeMark(l, o, v, e, p.k, Within(p, |l.nodes|));
      case AddAfter(v, p) => AddAfterMark(l, o, v, e, p.k, Within(p, |l.nodes|));
      case Take(p) => TakeOut(l, o, e, p.k, Within(p, |l.nodes|));
      case ToFront(p) => BringToEnd(l, o, e, p.k, Within(p, |l.nodes|), false);
      case ToBack(p) => BringToEnd(l, o, e, p.k, Within(p, |l.nodes|), true);
    }
  }

  method PerformMove(l: List, o: List, p: Place, q: Place, after: bool)
    requires Apart(l, o)
    modifies l, l.repr`next, l.repr`prev, l.repr`list
    ensures Performed(l, o, Brought(old(Values(l.nodes)), p, q, after))
  {
    ghost var before := l.nodes;
    Bring(l, o, p, q, after);
    BroughtValues(before, p, q, after);
  }

  method PerformClear(l: List, o: List)
    requires Apart(l, o)
    modifies l, l.repr`next, l.repr`prev
    ensures Performed(l, o, [])
  {
    l.Init();
  }

  /** One operation on a list; elements are found by walking. */
  method Perform(l: List, o: List, op: Operation)
    requires Apart(l, o)
    modifies l, l.repr`next, l.repr`prev, l.repr`list
    ensures Performed(l, o, Applied(old(Values(l.nodes)), old(Values(o.nodes)), op))
  {
    if TakesOne(op) {
      var e := Find(l, o, PlaceOf(op));
      if e != null {
        PerformOn(l, o, op, e);
      }
    } else {
      match op {
        case Clear => PerformClear(l, o);
        case AddFront(v) => AddFrontOf(l, o, v);
        case AddBack(v) => AddBackOf(l, o, v);
        case ToBefore(p, q) => PerformMove(l, o, p, q, false);
        case ToAfter(p, q) => PerformMove(l, o, p, q, true);
        case AppendList(itself) => AddBackList(l, o, itself);
        case PrependList(itself) => AddFrontList(l, o, itself);
      }
    }
  }

  // ----- Whole runs -----

  method PerformStep(a: List, b: List, step: Step)
    requires Apart(a, b)
    modifies a, b, a.repr, b.repr
    ensures Apart(a, b) && fresh(a.repr - old(a.repr)) && fresh(b.repr - old(b.repr))
    ensures (Values(a.nodes), Values(b.nodes)) == Stepped(old(Values(a.nodes)), old(Values(b.nodes)), step)
  {
    if step.onFirst {
      Perform(a, b, step.op);
    } else {
      Perform(b, a, step.op);
    }
  }

  /**
    Any run of the operations on two lists leaves two well-formed rings, whose values are those of the same run on
    sequences.
   */
  method PerformAll(a: List, b: List, steps: seq<Step>)
    requires Apart(a, b)
    modifies a, b, a.repr, b.repr
    ensures Apart(a, b) && fresh(a.repr - old(a.repr)) && fresh(b.repr - old(b.repr))
    ensures (Values(a.nodes), Values(b.nodes)) == Folded(old(Values(a.nodes)), old(Values(b.nodes)), steps)
  {
    var rest := steps;
    ghost var all := Folded(Values(a.nodes), Values(b.nodes), steps);
    while rest != []
      invariant Apart(a, b) && fresh(a.repr - old(a.repr)) && fresh(b.repr - old(b.repr))
      invariant Folded(Values(a.nodes), Values(b.nodes), rest) == all
      decreases |rest|
    {
      PerformStep(a, b, rest[0]);
      rest := rest[1..];
    }
  }

  lemma {:induction false} ReversedValues(nodes: seq<Element>)
    ensures Values(Reversed(nodes)) == Reversed(Values(nodes))
  {
    if nodes != [] {
      ReversedValues(nodes[1..]);
      var back, first := Reversed(nodes[1..]), [nodes[0]];
      ValuesJoin(back, first);
      assert Values(nodes)[1..] == Values(nodes[1..]);
    }
  }

  /** The values met on a walk from the front, and on one from the back. */
  method WalkBoth(l: List) returns (forward: seq<ByteInterval>, backward: seq<ByteInterval>)
    requires l.Valid()
    ensures forward == Values(l.nodes) && backward == Reversed(forward)
  {
    var there := l.Forward();
    var back := l.Backward();
    ReversedValues(l.nodes);
    forward, backward := Values(there), Values(back);
  }

  method NewLists() returns (a: List, b: List)
    ensures Apart(a, b) && a.nodes == [] && b.nodes == []
    ensures fresh(a) && fresh(b) && fresh(a.repr) && fresh(b.repr)
  {
    a := new List();
    b := new List();
  }

  /**
    Two new lists, any run of operations on them, and a walk over each in both directions: the walks end, the walk
    forwards meets the values of the same run on sequences, and the walk backwards meets them in reverse.
   */
  method RunAndWalk(steps: seq<Step>)
    returns (a: seq<ByteInterval>, b: seq<ByteInterval>, aBack: seq<ByteInterval>, bBack: seq<ByteInterval>)
    ensures (a, b) == Folded([], [], steps) && aBack == Reversed(a) && bBack == Reversed(b)
  {
    var first, second := NewLists();
    PerformAll(first, second, steps);
    a, aBack := WalkBoth(first);
    b, bBack := WalkBoth(second);
  }
}
