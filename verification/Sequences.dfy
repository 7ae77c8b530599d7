/** Facts about sequences that the solver is slow to find among other definitions, and lists of
    identities. */
module Sequences {
  lemma Assoc<T>(a: seq<T>, b: seq<T>, c: seq<T>)
    ensures a + (b + c) == (a + b) + c
  {
  }

  /** Taking the first part of a concatenation off. */
  lemma Drop<T>(a: seq<T>, b: seq<T>)
    ensures (a + b)[|a|..] == b && (a + b)[..|a|] == a
  {
  }

  lemma Tail<T>(a: seq<T>, b: seq<T>)
    requires a != []
    ensures (a + b)[0] == a[0] && (a + b)[1..] == a[1..] + b
  {
  }

  lemma Uncons<T>(a: seq<T>)
    requires a != []
    ensures a == [a[0]] + a[1..]
  {
  }

  predicate Distinct(ids: seq<nat>) {
    forall i, j :: 0 <= i < j < |ids| ==> ids[i] != ids[j]
  }

  function RemoveFirst(ids: seq<nat>, id: nat): seq<nat> {
    if ids == [] then [] else if ids[0] == id then ids[1..] else [ids[0]] + RemoveFirst(ids[1..], id)
  }

  /** The loop that takes one entry out of a list. */
  method DropFirst(ids: seq<nat>, id: nat) returns (left: seq<nat>)
    ensures left == RemoveFirst(ids, id)
  {
    var i := 0;
    while i < |ids|
      invariant i <= |ids|
      invariant RemoveFirst(ids, id) == ids[..i] + RemoveFirst(ids[i..], id)
    {
      assert ids[i..][1..] == ids[i + 1..];
      if ids[i] == id {
        return ids[..i] + ids[i + 1..];
      }
      assert ids[..i] + [ids[i]] == ids[..i + 1];
      i := i + 1;
    }
    assert ids[..i] == ids && ids[i..] == [];
    return ids;
  }

  /** Taking one entry out of a list without repetitions. */
  lemma {:induction false} RemoveFirstKeeps(ids: seq<nat>, id: nat)
    requires Distinct(ids) && id in ids
    ensures var r := RemoveFirst(ids, id); |r| == |ids| - 1 && Distinct(r) && forall x :: x in r <==> x in ids && x != id
  {
    if ids[0] != id {
      DistinctTail(ids);
      RemoveFirstKeeps(ids[1..], id);
      var r := RemoveFirst(ids[1..], id);
      assert forall x :: x in [ids[0]] + r <==> x == ids[0] || x in r;
    } else {
      DistinctTail(ids);
    }
  }

  lemma DistinctTail(ids: seq<nat>)
    requires Distinct(ids) && ids != []
    ensures Distinct(ids[1..]) && ids[0] !in ids[1..] && forall x :: x in ids <==> x == ids[0] || x in ids[1..]
  {
    var tail := ids[1..];
    forall i, j | 0 <= i < j < |tail| ensures tail[i] != tail[j] {
      assert tail[i] == ids[i + 1] && tail[j] == ids[j + 1];
    }
  }
}
