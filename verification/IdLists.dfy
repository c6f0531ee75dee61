/** Lists of identifiers: of streams, and of frame objects. */
module IdLists {

  predicate NoDuplicates(ids: seq<nat>) {
    ids == [] || (ids[0] !in ids[1..] && NoDuplicates(ids[1..]))
  }

  /** The list without the first occurrence of the identifier. */
  function Without(ids: seq<nat>, id: nat): seq<nat> {
    if ids == [] then [] else if ids[0] == id then ids[1..] else [ids[0]] + Without(ids[1..], id)
  }

  lemma {:induction false} WithoutEffect(ids: seq<nat>, id: nat)
    requires NoDuplicates(ids) && id in ids
    ensures NoDuplicates(Without(ids, id)) && |Without(ids, id)| == |ids| - 1
    ensures forall x :: x in Without(ids, id) <==> x in ids && x != id
  {
    assert ids == [ids[0]] + ids[1..];
    if ids[0] != id {
      WithoutEffect(ids[1..], id);
      var rest := Without(ids[1..], id);
      assert ([ids[0]] + rest)[1..] == rest;
    }
  }

  lemma {:induction false} NoDuplicatesAppend(a: seq<nat>, b: seq<nat>)
    ensures NoDuplicates(a + b) <==> NoDuplicates(a) && NoDuplicates(b) && forall x :: x in a ==> x !in b
  {
    if a == [] {
      assert a + b == b;
    } else {
      NoDuplicatesAppend(a[1..], b);
      assert (a + b)[1..] == a[1..] + b;
      assert a == [a[0]] + a[1..];
    }
  }
}
