/**
  The doubly linked list of byte intervals (quic-go/internal/utils/byteinterval_linkedlist.go): a ring of
  elements closed by a sentinel that belongs to the list.
 */
module RingList {
  import opened Basics

  // ----- Sequences -----

  function InsertAt<T>(s: seq<T>, k: nat, x: T): (r: seq<T>)
    requires k <= |s|
    ensures |r| == |s| + 1
  {
    s[..k] + [x] + s[k..]
  }

  function RemoveAt<T>(s: seq<T>, k: nat): (r: seq<T>)
    requires k < |s|
    ensures |r| == |s| - 1
  {
    s[..k] + s[k + 1..]
  }

  function IndexOf<T(==)>(s: seq<T>, x: T): (k: nat)
    requires x in s
    ensures k < |s| && s[k] == x
  {
    if s[0] == x then 0 else 1 + IndexOf(s[1..], x)
  }

  function Reversed<T>(s: seq<T>): seq<T> {
    if s == [] then [] else Reversed(s[1..]) + [s[0]]
  }

  lemma {:induction false} ReversedAppend<T>(s: seq<T>, x: T)
    ensures Reversed(s + [x]) == [x] + Reversed(s)
  {
    if s != [] {
      ReversedAppend(s[1..], x);
      assert (s + [x])[1..] == s[1..] + [x];
    }
  }

  ghost predicate Differ<T>(s: seq<T>, i: int, j: int)
    requires 0 <= i < j < |s|
  {
    s[i] != s[j]
  }

  ghost predicate Distinct<T>(s: seq<T>) {
    forall i, j :: 0 <= i < j < |s| ==> Differ(s, i, j)
  }

  lemma {:induction false} InsertDistinct<T>(s: seq<T>, k: nat, x: T)
    requires Distinct(s) && k <= |s| && x !in s
    ensures Distinct(InsertAt(s, k, x))
  {
    var r := InsertAt(s, k, x);
    forall i, j | 0 <= i < j < |r| ensures Differ(r, i, j) {
      var a, b := if i < k then i else i - 1, if j < k then j else j - 1;
      if i != k && j != k {
        assert Differ(s, a, b);
      }
    }
  }

  lemma {:induction false} RemoveDistinct<T>(s: seq<T>, k: nat)
    requires Distinct(s) && k < |s|
    ensures Distinct(RemoveAt(s, k)) && s[k] !in RemoveAt(s, k)
  {
    var r := RemoveAt(s, k);
    forall i, j | 0 <= i < j < |r| ensures Differ(r, i, j) {
      assert Differ(s, if i < k then i else i + 1, if j < k then j else j + 1);
    }
    forall i | 0 <= i < |r| ensures r[i] != s[k] {
      if i < k {
        assert Differ(s, i, k);
      } else {
        assert Differ(s, k, i + 1);
      }
    }
  }

  lemma {:induction false} OnlyIndex<T>(s: seq<T>, k: nat)
    requires Distinct(s) && k < |s|
    ensures IndexOf(s, s[k]) == k
  {
    if k > 0 {
      assert Differ(s, 0, k);
      forall i, j | 0 <= i < j < |s[1..]| ensures Differ(s[1..], i, j) {
        assert Differ(s, i + 1, j + 1);
      }
      OnlyIndex(s[1..], k - 1);
    }
  }

  lemma {:induction false} StillThere<T>(s: seq<T>, k: nat, x: T)
    requires k < |s| && x in s && x != s[k]
    ensures x in RemoveAt(s, k)
  {
    var m := IndexOf(s, x);
    if m < k {
      assert RemoveAt(s, k)[m] == x;
    } else {
      assert RemoveAt(s, k)[m - 1] == x;
    }
  }

  /** The element moved next to the mark: directly before it, or directly after it. */
  ghost function Moved<T>(s: seq<T>, e: T, mark: T, after: bool): seq<T>
    requires e in s && mark in s && e != mark
  {
    var rest := RemoveAt(s, IndexOf(s, e));
    StillThere(s, IndexOf(s, e), mark);
    InsertAt(rest, IndexOf(rest, mark) + if after then 1 else 0, e)
  }

  // ----- The ring -----

  class Element {
    var next: Element?
    var prev: Element?
    var list: List?
    var value: ByteInterval

    constructor (value: ByteInterval)
      ensures this.value == value && next == null && prev == null && list == null
    {
      this.value := value;
      next, prev, list := null, null, null;
    }

    /** The element after this one, or nothing at the end of the list; `k` is the position of the element. */
    method Next(ghost k: nat) returns (r: Element?)
      requires list != null ==> list.Valid() && k < |list.nodes| && list.nodes[k] == this
      ensures r == if list != null && k + 1 < |list.nodes| then list.nodes[k + 1] else null
    {
      if list != null {
        list.Step(k);
      }
      r := if list != null && next != list.root then next else null;
    }

    method Prev(ghost k: nat) returns (r: Element?)
      requires list != null ==> list.Valid() && k < |list.nodes| && list.nodes[k] == this
      ensures r == if list != null && k > 0 then list.nodes[k - 1] else null
    {
      if list != null {
        list.Step(k - 1);
      }
      r := if list != null && prev != list.root then prev else null;
    }
  }

  /** The values of elements, in order. */
  function Values(nodes: seq<Element>): (values: seq<ByteInterval>)
    reads nodes`value
    ensures |values| == |nodes|
  {
    if nodes == [] then [] else [nodes[0].value] + Values(nodes[1..])
  }

  lemma {:induction false} ValuesJoin(a: seq<Element>, b: seq<Element>)
    ensures Values(a + b) == Values(a) + Values(b)
  {
    if a == [] {
      assert a + b == b;
    } else {
      ValuesJoin(a[1..], b);
      assert (a + b)[1..] == a[1..] + b;
      Associate([a[0].value], Values(a[1..]), Values(b));
    }
  }

  lemma {:induction false} ValuesAt(nodes: seq<Element>, k: nat)
    requires k < |nodes|
    ensures Values(nodes)[k] == nodes[k].value
  {
    if k > 0 {
      ValuesAt(nodes[1..], k - 1);
    }
  }

  lemma {:induction false} CopiedBack(source: seq<Element>, copies: seq<Element>, i: nat, x: Element)
    requires i < |source| && Values(copies) == Values(source)[..i] && x.value == source[i].value
    ensures Values(copies + [x]) == Values(source)[..i + 1]
  {
    ValuesJoin(copies, [x]);
    ValuesAt(source, i);
    assert Values(source)[..i + 1] == Values(source)[..i] + [source[i].value];
  }

  lemma {:induction false} CopiedFront(source: seq<Element>, copies: seq<Element>, i: nat, x: Element)
    requires 0 < i <= |source| && Values(copies) == Values(source)[i..] && x.value == source[i - 1].value
    ensures Values([x] + copies) == Values(source)[i - 1..]
  {
    ValuesJoin([x], copies);
    ValuesAt(source, i - 1);
    assert Values(source)[i - 1..] == [source[i - 1].value] + Values(source)[i..];
  }

  /** The element at position `i` of the ring; the sentinel stands before the first and after the last one. */
  ghost function At(root: Element, nodes: seq<Element>, i: int): Element {
    if 0 <= i < |nodes| then nodes[i] else root
  }

  lemma {:induction false} InsertedAt(root: Element, nodes: seq<Element>, k: nat, e: Element, i: int)
    requires k <= |nodes| && -1 <= i <= |nodes| + 1
    ensures At(root, InsertAt(nodes, k, e), i)
      == if i < k then At(root, nodes, i) else if i == k then e else At(root, nodes, i - 1)
  {
  }

  lemma {:induction false} RemovedAt(root: Element, nodes: seq<Element>, k: nat, i: int)
    requires k < |nodes| && -1 <= i < |nodes|
    ensures At(root, RemoveAt(nodes, k), i) == if i < k then At(root, nodes, i) else At(root, nodes, i + 1)
  {
  }

  /** The link after position `i` shares no field with the one that leads to position `k`. */
  ghost predicate Free(root: Element, nodes: seq<Element>, i: int, k: int) {
    At(root, nodes, i) != At(root, nodes, k - 1) && At(root, nodes, i + 1) != At(root, nodes, k)
  }

  class List {
    const root: Element
    var len: int
    /** The elements of the list in order. */
    ghost var nodes: seq<Element>
    /** The sentinel and every element that is or was in the list. */
    ghost var repr: set<Element>

    /** Position `i` holds an element of this list. */
    ghost predicate Member(i: int)
      requires 0 <= i < |nodes|
      reads this, repr
    {
      nodes[i] in repr && nodes[i] != root && nodes[i].list == this
    }

    /** Positions `i` and `i + 1` point to each other. */
    ghost predicate Link(i: int)
      reads this, repr
    {
      var a, b := At(root, nodes, i), At(root, nodes, i + 1);
      a in repr && b in repr && a.next == b && b.prev == a
    }

    ghost predicate Valid()
      reads this, repr
    {
      && root in repr && root.list == null
      && len == |nodes|
      && Distinct(nodes)
      && (forall i :: 0 <= i < |nodes| ==> Member(i))
      && (if root.next == null then nodes == [] else forall i :: -1 <= i < |nodes| ==> Link(i))
    }

    /** Following `next` walks the ring forwards, following `prev` walks it backwards. */
    lemma {:induction false} Step(i: int)
      requires Valid() && -1 <= i < |nodes| && (root.next != null || nodes != [])
      ensures At(root, nodes, i).next == At(root, nodes, i + 1)
      ensures At(root, nodes, i + 1).prev == At(root, nodes, i)
      ensures 0 <= i ==> nodes[i] != root
      ensures i + 1 < |nodes| ==> nodes[i + 1] != root
    {
      assert Link(i);
      if 0 <= i {
        assert Member(i);
      }
      if i + 1 < |nodes| {
        assert Member(i + 1);
      }
    }

    /** Positions hold different elements, except that the two ends are both the sentinel. */
    lemma {:induction false} Apart(a: int, b: int)
      requires Valid() && -1 <= a < b <= |nodes| && b - a <= |nodes|
      ensures At(root, nodes, a) != At(root, nodes, b)
    {
      if 0 <= a {
        assert Member(a);
      }
      if b < |nodes| {
        assert Member(b);
      }
      if 0 <= a && b < |nodes| {
        assert Differ(nodes, a, b);
      }
    }

    lemma {:induction false} OthersFree(k: nat)
      requires Valid() && k <= |nodes|
      ensures forall i :: -1 <= i < |nodes| && i != k - 1 ==> Free(root, nodes, i, k)
    {
      forall i | -1 <= i < |nodes| && i != k - 1 ensures Free(root, nodes, i, k) {
        if i < k - 1 {
          Apart(i, k - 1);
          Apart(i + 1, k);
        } else {
          Apart(k - 1, i);
          Apart(k, i + 1);
        }
      }
    }

    /** The zero value of the list type, which every operation accepts. */
    constructor ()
      ensures Valid() && nodes == [] && fresh(repr) && root.next == null
    {
      root := new Element(ByteInterval(0, 0));
      len := 0;
      nodes := [];
      repr := {root};
    }

    method Init()
      requires root in repr && root.list == null
      modifies this, root`next, root`prev
      ensures Valid() && nodes == [] && repr == old(repr) && root.next != null
    {
      root.next := root;
      root.prev := root;
      len := 0;
      nodes := [];
    }

    method LazyInit()
      requires Valid()
      modifies this, root`next, root`prev
      ensures Valid() && nodes == old(nodes) && repr == old(repr) && root.next != null
    {
      if root.next == null {
        Init();
      }
    }

    method Insert(e: Element, at: Element, ghost k: nat)
      requires Valid() && root.next != null && k <= |nodes| && at == At(root, nodes, k - 1)
      requires e !in nodes && e != root
      modifies this, repr`next, repr`prev, e`next, e`prev, e`list
      ensures Valid() && root.next != null
      ensures nodes == InsertAt(old(nodes), k, e) && repr == old(repr) + {e}
    {
      ghost var before := nodes;
      Step(k - 1);
      assert Link(k - 1);
      InsertDistinct(nodes, k, e);
      OthersFree(k);
      var n := at.next;
      at.next := e;
      e.prev := at;
      e.next := n;
      n.prev := e;
      e.list := this;
      len := len + 1;
      nodes := InsertAt(nodes, k, e);
      repr := repr + {e};
      forall i | 0 <= i < |nodes| ensures Member(i) {
        if i != k {
          assert old(Member(if i < k then i else i - 1));
        }
      }
      forall i | -1 <= i < |nodes| ensures Link(i) {
        InsertedAt(root, before, k, e, i);
        InsertedAt(root, before, k, e, i + 1);
        if i != k - 1 && i != k {
          ghost var j := if i < k then i else i - 1;
          assert Free(root, before, j, k);
          assert old(Link(j));
        }
      }
    }

    method Unlink(e: Element, ghost k: nat)
      requires Valid() && k < |nodes| && nodes[k] == e
      modifies this, repr`next, repr`prev, repr`list
      ensures Valid() && root.next != null
      ensures nodes == RemoveAt(old(nodes), k) && repr == old(repr) && e !in nodes
      ensures e.next == null && e.prev == null && e.list == null
    {
      ghost var before := nodes;
      assert Member(k) && Link(k - 1) && Link(k);
      RemoveDistinct(nodes, k);
      OthersFree(k);
      OthersFree(k + 1);
      e.prev.next := e.next;
      e.next.prev := e.prev;
      e.next := null;
      e.prev := null;
      e.list := null;
      len := len - 1;
      nodes := RemoveAt(nodes, k);
      forall i | 0 <= i < |nodes| ensures Member(i) {
        assert old(Member(if i < k then i else i + 1));
      }
      forall i | -1 <= i < |nodes| ensures Link(i) {
        RemovedAt(root, before, k, i);
        RemovedAt(root, before, k, i + 1);
        if i != k - 1 {
          ghost var j := if i < k then i else i + 1;
          assert Free(root, before, j, k) && Free(root, before, j, k + 1);
          assert old(Link(j));
        }
      }
    }

    // ----- Reading -----

    method Len() returns (n: int)
      requires Valid()
      ensures n == |nodes|
    {
      n := len;
    }

    method Front() returns (e: Element?)
      requires Valid()
      ensures e == if nodes == [] then null else nodes[0]
    {
      if len == 0 {
        return null;
      }
      Step(-1);
      e := root.next;
    }

    method Back() returns (e: Element?)
      requires Valid()
      ensures e == if nodes == [] then null else nodes[|nodes| - 1]
    {
      if len == 0 {
        return null;
      }
      Step(|nodes| - 1);
      e := root.prev;
    }

    /** The walk from the front visits the elements in order, each once. */
    method Forward() returns (walk: seq<Element>)
      requires Valid()
      ensures walk == nodes
    {
      walk := [];
      var e := Front();
      while e != null
        invariant |walk| <= |nodes| && walk == nodes[..|walk|]
        invariant e == if |walk| < |nodes| then nodes[|walk|] else null
        decreases |nodes| - |walk|
      {
        assert Member(|walk|);
        walk := walk + [e];
        e := e.Next(|walk| - 1);
      }
    }

    /** The walk from the back visits them in reverse. */
    method Backward() returns (walk: seq<Element>)
      requires Valid()
      ensures walk == Reversed(nodes)
    {
      walk := [];
      var e := Back();
      ghost var left := |nodes|;
      assert nodes[..left] == nodes;
      while e != null
        invariant 0 <= left <= |nodes|
        invariant walk + Reversed(nodes[..left]) == Reversed(nodes)
        invariant e == if left > 0 then nodes[left - 1] else null
        decreases left
      {
        assert Member(left - 1);
        var x: Element := e;
        assert nodes[..left] == nodes[..left - 1] + [x];
        ReversedAppend(nodes[..left - 1], x);
        assert walk + ([x] + Reversed(nodes[..left - 1])) == walk + [x] + Reversed(nodes[..left - 1]);
        walk := walk + [x];
        left := left - 1;
        e := e.Prev(left);
      }
      assert walk + [] == walk;
    }

    // ----- Adding -----

    method InsertValue(v: ByteInterval, at: Element, ghost k: nat) returns (e: Element)
      requires Valid() && root.next != null && k <= |nodes| && at == At(root, nodes, k - 1)
      modifies this, repr`next, repr`prev, repr`list
      ensures Valid() && root.next != null && fresh(e) && e.value == v
      ensures nodes == InsertAt(old(nodes), k, e) && repr == old(repr) + {e}
    {
      e := new Element(v);
      Insert(e, at, k);
    }

    method PushFront(v: ByteInterval) returns (e: Element)
      requires Valid()
      modifies this, repr`next, repr`prev, repr`list
      ensures Valid() && fresh(e) && e.value == v
      ensures nodes == [e] + old(nodes) && repr == old(repr) + {e}
    {
      LazyInit();
      e := InsertValue(v, root, 0);
    }

    method PushBack(v: ByteInterval) returns (e: Element)
      requires Valid()
      modifies this, repr`next, repr`prev, repr`list
      ensures Valid() && fresh(e) && e.value == v
      ensures nodes == old(nodes) + [e] && repr == old(repr) + {e}
    {
      LazyInit();
      Step(|nodes| - 1);
      e := InsertValue(v, root.prev, |nodes|);
    }

    method InsertBefore(v: ByteInterval, mark: Element) returns (e: Element?)
      requires Valid() && (mark.list == this ==> mark in nodes)
      modifies this, repr`next, repr`prev, repr`list
      ensures Valid() && (e == null <==> old(mark.list) != this)
      ensures e == null ==> nodes == old(nodes) && repr == old(repr)
      ensures e != null ==> fresh(e) && e.value == v && repr == old(repr) + {e}
      ensures e != null ==> nodes == InsertAt(old(nodes), IndexOf(old(nodes), mark), e)
    {
      if mark.list != this {
        return null;
      }
      ghost var k := IndexOf(nodes, mark);
      Step(k as int - 1);
      assert Link(-1);
      e := InsertValue(v, mark.prev, k);
    }

    method InsertAfter(v: ByteInterval, mark: Element) returns (e: Element?)
      requires Valid() && (mark.list == this ==> mark in nodes)
      modifies this, repr`next, repr`prev, repr`list
      ensures Valid() && (e == null <==> old(mark.list) != this)
      ensures e == null ==> nodes == old(nodes) && repr == old(repr)
      ensures e != null ==> fresh(e) && e.value == v && repr == old(repr) + {e}
      ensures e != null ==> nodes == InsertAt(old(nodes), IndexOf(old(nodes), mark) + 1, e)
    {
      if mark.list != this {
        return null;
      }
      assert Link(-1);
      e := InsertValue(v, mark, IndexOf(nodes, mark) + 1);
    }

    // ----- Removing and moving -----

    method Remove(e: Element) returns (v: ByteInterval)
      requires Valid() && (e.list == this ==> e in nodes)
      modifies this, repr`next, repr`prev, repr`list
      ensures Valid() && repr == old(repr) && v == old(e.value) && e.list != this
      ensures nodes == if old(e.list) == this then RemoveAt(old(nodes), IndexOf(old(nodes), e)) else old(nodes)
    {
      if e.list == this {
        Unlink(e, IndexOf(nodes, e));
      }
      v := e.value;
    }

    method MoveToFront(e: Element)
      requires Valid() && (e.list == this ==> e in nodes)
      modifies this, repr`next, repr`prev, repr`list
      ensures Valid() && repr == old(repr)
      ensures nodes == if old(e.list) == this then [e] + RemoveAt(old(nodes), IndexOf(old(nodes), e)) else old(nodes)
    {
      if e.list != this {
        return;
      }
      ghost var k := IndexOf(nodes, e);
      assert Member(k);
      if root.next == e {
        Step(-1);
        OnlyIndex(nodes, 0);
        return;
      }
      Unlink(e, k);
      Insert(e, root, 0);
    }

    method MoveToBack(e: Element)
      requires Valid() && (e.list == this ==> e in nodes)
      modifies this, repr`next, repr`prev, repr`list
      ensures Valid() && repr == old(repr)
      ensures nodes == if old(e.list) == this then RemoveAt(old(nodes), IndexOf(old(nodes), e)) + [e] else old(nodes)
    {
      if e.list != this {
        return;
      }
      ghost var k := IndexOf(nodes, e);
      assert Member(k);
      if root.prev == e {
        Step(|nodes| - 1);
        OnlyIndex(nodes, |nodes| - 1);
        return;
      }
      Unlink(e, k);
      Step(|nodes| - 1);
      Insert(e, root.prev, |nodes|);
    }

    method MoveBefore(e: Element, mark: Element)
      requires Valid() && (e.list == this ==> e in nodes) && (mark.list == this ==> mark in nodes)
      modifies this, repr`next, repr`prev, repr`list
      ensures Valid() && repr == old(repr)
      ensures if old(e.list) != this || e == mark || old(mark.list) != this then nodes == old(nodes)
        else nodes == Moved(old(nodes), e, mark, false)
    {
      if e.list != this || e == mark || mark.list != this {
        return;
      }
      ghost var k := IndexOf(nodes, e);
      assert Member(k);
      StillThere(nodes, k, mark);
      Unlink(e, k);
      ghost var m := IndexOf(nodes, mark);
      Step(m as int - 1);
      Insert(e, mark.prev, m);
    }

    method MoveAfter(e: Element, mark: Element)
      requires Valid() && (e.list == this ==> e in nodes) && (mark.list == this ==> mark in nodes)
      modifies this, repr`next, repr`prev, repr`list
      ensures Valid() && repr == old(repr)
      ensures if old(e.list) != this || e == mark || old(mark.list) != this then nodes == old(nodes)
        else nodes == Moved(old(nodes), e, mark, true)
    {
      if e.list != this || e == mark || mark.list != this {
        return;
      }
      ghost var k := IndexOf(nodes, e);
      assert Member(k);
      StillThere(nodes, k, mark);
      Unlink(e, k);
      Insert(e, mark, IndexOf(nodes, mark) + 1);
    }

    // ----- Appending a whole list -----

    /** Lists that share no element. */
    ghost predicate Beside(other: List)
      reads this, other
    {
      other == this || repr !! other.repr
    }

    /** One step: copy an element of `other`, which may be this list, to the back, and move on to the next one. */
    method CopyToBack(other: List, e: Element, ghost k: nat) returns (next: Element?, ghost x: Element)
      requires Valid() && other.Valid() && Beside(other) && root.next != null
      requires k < |other.nodes| && other.nodes[k] == e
      modifies this, repr`next, repr`prev, repr`list
      ensures Valid() && other.Valid() && Beside(other) && root.next != null && fresh(repr - old(repr))
      ensures nodes == old(nodes) + [x] && x.value == e.value
      ensures other != this ==> other.nodes == old(other.nodes) && other.repr == old(other.repr)
      ensures k + 1 < |old(other.nodes)| ==> next == old(other.nodes)[k + 1]
    {
      Step(|nodes| - 1);
      x := InsertValue(e.value, root.prev, |nodes|);
      assert other.Member(k);
      next := e.Next(k);
    }

    method CopyToFront(other: List, e: Element, ghost k: nat) returns (next: Element?, ghost x: Element)
      requires Valid() && other.Valid() && Beside(other) && root.next != null
      requires k < |other.nodes| && other.nodes[k] == e
      modifies this, repr`next, repr`prev, repr`list
      ensures Valid() && other.Valid() && Beside(other) && root.next != null && fresh(repr - old(repr))
      ensures nodes == [x] + old(nodes) && x.value == e.value
      ensures other != this ==> other.nodes == old(other.nodes) && other.repr == old(other.repr)
      ensures k > 0 ==> next == old(other.nodes)[k - 1]
    {
      x := InsertValue(e.value, root, 0);
      ghost var k' := if other == this then k + 1 else k;
      assert other.Member(k');
      next := e.Prev(k');
    }

    /** `copies` stand for the elements of `other`, as it was, before or from `at`; `base` was here before. */
    ghost predicate Copying(
      other: List, source: seq<Element>, base: seq<Element>, copies: seq<Element>, values: seq<ByteInterval>, at: nat,
      back: bool)
      reads this, repr, other, other.repr, copies, source
    {
      && Valid() && other.Valid() && Beside(other) && root.next != null
      && (if other == this then source == base else other.nodes == source)
      && nodes == (if back then base + copies else copies + base)
      && Values(source) == values && at <= |source|
      && Values(copies) == if back then values[..at] else values[at..]
    }

    method CopyNextToBack(
      other: List, e: Element, ghost source: seq<Element>, ghost base: seq<Element>, ghost copies: seq<Element>,
      ghost values: seq<ByteInterval>, ghost at: nat)
      returns (next: Element?, ghost copies': seq<Element>)
      requires Copying(other, source, base, copies, values, at, true) && at < |source| && source[at] == e
      modifies this, repr`next, repr`prev, repr`list
      ensures Copying(other, source, base, copies', values, at + 1, true) && fresh(repr - old(repr))
      ensures at + 1 < |source| ==> next == source[at + 1]
    {
      ghost var x;
      next, x := CopyToBack(other, e, at);
      copies' := copies + [x];
      Associate(base, copies, [x]);
      CopiedBack(source, copies, at, x);
    }

    method CopyAllToBack(other: List, front: Element?, n: int) returns (ghost copies: seq<Element>)
      requires Valid() && other.Valid() && Beside(other) && root.next != null
      requires n == |other.nodes| && (n > 0 ==> front == other.nodes[0])
      modifies this, repr`next, repr`prev, repr`list
      ensures Valid() && other.Valid() && Beside(other) && fresh(repr - old(repr))
      ensures other != this ==> other.nodes == old(other.nodes) && other.repr == old(other.repr)
      ensures nodes == old(nodes) + copies && Values(copies) == old(Values(other.nodes))
    {
      var i, e := n, front;
      ghost var source, base, values := other.nodes, nodes, Values(other.nodes);
      copies := [];
      while i > 0
        invariant 0 <= i <= n
        invariant Copying(other, source, base, copies, values, n - i, true) && fresh(repr - old(repr))
        invariant i > 0 ==> e == source[n - i]
      {
        e, copies := CopyNextToBack(other, e, source, base, copies, values, n - i);
        i := i - 1;
      }
    }

    /** Where the next element to copy stands now. */
    lemma {:induction false} StandsAt(
      other: List, source: seq<Element>, base: seq<Element>, copies: seq<Element>, values: seq<ByteInterval>, at: nat,
      i: nat, k: nat)
      requires Copying(other, source, base, copies, values, at, false) && i < |source|
      requires k == i + if other == this then |copies| else 0
      ensures k < |other.nodes| && other.nodes[k] == source[i]
    {
    }

    method CopyNextToFront(
      other: List, e: Element, ghost source: seq<Element>, ghost base: seq<Element>, ghost copies: seq<Element>,
      ghost values: seq<ByteInterval>, ghost at: nat)
      returns (next: Element?, ghost copies': seq<Element>)
      requires Copying(other, source, base, copies, values, at, false) && 0 < at && source[at - 1] == e
      modifies this, repr`next, repr`prev, repr`list
      ensures Copying(other, source, base, copies', values, at - 1, false) && fresh(repr - old(repr))
      ensures at > 1 ==> next == source[at - 2]
    {
      ghost var k := at - 1 + if other == this then |copies| else 0;
      StandsAt(other, source, base, copies, values, at, at - 1, k);
      if at > 1 {
        StandsAt(other, source, base, copies, values, at, at - 2, k - 1);
      }
      ghost var x;
      next, x := CopyToFront(other, e, k);
      copies' := [x] + copies;
      Associate([x], copies, base);
      CopiedFront(source, copies, at, x);
    }

    method CopyAllToFront(other: List, back: Element?, n: int) returns (ghost copies: seq<Element>)
      requires Valid() && other.Valid() && Beside(other) && root.next != null
      requires n == |other.nodes| && (n > 0 ==> back == other.nodes[n - 1])
      modifies this, repr`next, repr`prev, repr`list
      ensures Valid() && other.Valid() && Beside(other) && fresh(repr - old(repr))
      ensures other != this ==> other.nodes == old(other.nodes) && other.repr == old(other.repr)
      ensures nodes == copies + old(nodes) && Values(copies) == old(Values(other.nodes))
    {
      var i, e := n, back;
      ghost var source, base, values := other.nodes, nodes, Values(other.nodes);
      copies := [];
      while i > 0
        invariant 0 <= i <= n
        invariant Copying(other, source, base, copies, values, i, false) && fresh(repr - old(repr))
        invariant i > 0 ==> e == source[i - 1]
      {
        e, copies := CopyNextToFront(other, e, source, base, copies, values, i);
        i := i - 1;
      }
    }

    /** The list is no zero list any more, and the other one is as it was. */
    method LazyInitBeside(other: List)
      requires Valid() && other.Valid() && Beside(other)
      modifies this, root`next, root`prev
      ensures Valid() && other.Valid() && Beside(other) && root.next != null
      ensures nodes == old(nodes) && repr == old(repr)
      ensures other.nodes == old(other.nodes) && other.repr == old(other.repr)
    {
      LazyInit();
    }

    /**
      Copies of all elements of `other` follow, in order. The lists may be the same, which doubles it: the
      number of steps is fixed before the first.
     */
    method PushBackList(other: List) returns (ghost copies: seq<Element>)
      requires Valid() && other.Valid() && Beside(other)
      modifies this, repr`next, repr`prev, repr`list
      ensures Valid() && other.Valid() && Beside(other) && fresh(repr - old(repr))
      ensures other != this ==> other.nodes == old(other.nodes) && other.repr == old(other.repr)
      ensures nodes == old(nodes) + copies && Values(copies) == old(Values(other.nodes))
    {
      LazyInitBeside(other);
      var i := other.Len();
      var e := other.Front();
      copies := CopyAllToBack(other, e, i);
    }

    /** Copies of all elements of `other` come first, in order. */
    method PushFrontList(other: List) returns (ghost copies: seq<Element>)
      requires Valid() && other.Valid() && Beside(other)
      modifies this, repr`next, repr`prev, repr`list
      ensures Valid() && other.Valid() && Beside(other) && fresh(repr - old(repr))
      ensures other != this ==> other.nodes == old(other.nodes) && other.repr == old(other.repr)
      ensures nodes == copies + old(nodes) && Values(copies) == old(Values(other.nodes))
    {
      LazyInitBeside(other);
      var i := other.Len();
      var e := other.Back();
      copies := CopyAllToFront(other, e, i);
    }
  }
}
