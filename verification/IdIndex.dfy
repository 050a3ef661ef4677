/** Records under ids, listed by sequences of ids: the shape of both in-memory stores. */
module IdIndex {

  /** The stored records of the listed ids, in order. */
  function Lookup<T>(byId: map<nat, T>, ids: seq<nat>): seq<T> {
    if ids == [] then []
    else (if ids[0] in byId then [byId[ids[0]]] else []) + Lookup(byId, ids[1..])
  }

  lemma LookupStep<T>(byId: map<nat, T>, ids: seq<nat>, i: nat)
    requires i < |ids|
    ensures Lookup(byId, ids[i..]) == (if ids[i] in byId then [byId[ids[i]]] else []) + Lookup(byId, ids[i + 1..])
  {
    assert ids[i..][1..] == ids[i + 1..];
  }

  lemma LookupEnds<T>(byId: map<nat, T>, ids: seq<nat>)
    ensures ids[0..] == ids && Lookup(byId, ids[|ids|..]) == []
  {}

  lemma {:induction false} LookupAll<T>(byId: map<nat, T>, ids: seq<nat>)
    requires forall i :: 0 <= i < |ids| ==> ids[i] in byId
    ensures |Lookup(byId, ids)| == |ids|
    ensures forall i :: 0 <= i < |ids| ==> Lookup(byId, ids)[i] == byId[ids[i]]
  {
    if ids != [] {
      LookupAll(byId, ids[1..]);
    }
  }

  ghost predicate NoDuplicates(ids: seq<nat>) {
    ids == [] || (ids[0] !in ids[1..] && NoDuplicates(ids[1..]))
  }

  lemma {:induction false} NoDuplicatesMeans(ids: seq<nat>, i: nat, j: nat)
    requires NoDuplicates(ids) && i < |ids| && j < |ids| && ids[i] == ids[j]
    ensures i == j
  {
    if i > 0 && j > 0 {
      NoDuplicatesMeans(ids[1..], i - 1, j - 1);
    }
  }

  lemma {:induction false} NoDuplicatesAppend(ids: seq<nat>, id: nat)
    requires NoDuplicates(ids) && id !in ids
    ensures NoDuplicates(ids + [id])
  {
    if ids != [] {
      NoDuplicatesAppend(ids[1..], id);
      assert (ids + [id])[1..] == ids[1..] + [id];
    }
  }

  lemma {:induction false} NoDuplicatesDrop(ids: seq<nat>, k: nat)
    requires NoDuplicates(ids) && k <= |ids|
    ensures NoDuplicates(ids[k..])
  {
    if k > 0 {
      NoDuplicatesDrop(ids[1..], k - 1);
      assert ids[1..][k - 1..] == ids[k..];
    }
  }
}
