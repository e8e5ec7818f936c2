/** The search frontier: a dictionary from state to priority. `order` lists the
    keys in the dictionary's insertion order and `prio` holds their priorities;
    pushing an existing key overwrites its priority and keeps its position. */
module Frontier {

  /** Index of the first key of minimum priority in `keys` (argmin returns the
      first minimum). */
  method FirstMinIndex<T>(keys: seq<T>, prio: map<T, nat>) returns (idx: nat)
    requires |keys| > 0
    requires forall k :: k in keys ==> k in prio
    ensures idx < |keys|
    ensures forall j :: 0 <= j < |keys| ==> prio[keys[idx]] <= prio[keys[j]]
    ensures forall j :: 0 <= j < idx ==> prio[keys[idx]] < prio[keys[j]]
  {
    idx := 0;
    var i := 1;
    while i < |keys|
      invariant 1 <= i <= |keys|
      invariant idx < i
      invariant forall j :: 0 <= j < i ==> prio[keys[idx]] <= prio[keys[j]]
      invariant forall j :: 0 <= j < idx ==> prio[keys[idx]] < prio[keys[j]]
    {
      if prio[keys[i]] < prio[keys[idx]] {
        idx := i;
      }
      i := i + 1;
    }
  }

  class PriorityQueue<T(==,!new)> {
    var order: seq<T>
    var prio: map<T, nat>

    /** The keys in `order` are distinct and are exactly the keys of `prio`. */
    ghost predicate Valid()
      reads this
    {
      && (forall i, j :: 0 <= i < j < |order| ==> order[i] != order[j])
      && (forall k :: k in order <==> k in prio)
    }

    /** Number of entries, the `len` of the dictionary. */
    function Size(): (n: nat)
      reads this
      requires Valid()
      ensures n == |prio|
    {
      DistinctSize(order, prio.Keys);
      |order|
    }

    constructor ()
      ensures Valid() && order == [] && prio == map[]
    {
      order := [];
      prio := map[];
    }

    /** push: inserts `item` or overwrites its priority. */
    method Push(item: T, priority: nat)
      requires Valid()
      modifies this
      ensures Valid()
      ensures prio == old(prio)[item := priority]
      ensures order == if item in old(prio) then old(order) else old(order) + [item]
      ensures |prio| == if item in old(prio) then old(|prio|) else old(|prio|) + 1
    {
      if item !in prio {
        order := order + [item];
      }
      prio := prio[item := priority];
    }

    /** pop: removes and returns the first key of minimum priority. */
    method Pop() returns (top: T)
      requires Valid() && |order| > 0
      modifies this
      ensures Valid()
      ensures top in old(prio)
      ensures forall k :: k in old(prio) ==> old(prio)[top] <= old(prio)[k]
      ensures exists i :: 0 <= i < |old(order)| && old(order)[i] == top &&
                          order == old(order)[..i] + old(order)[i + 1..] &&
                          forall j :: 0 <= j < i ==> old(prio)[top] < old(prio)[old(order)[j]]
      ensures prio == old(prio) - {top}
      ensures |order| == |old(order)| - 1
    {
      var idx := FirstMinIndex(order, prio);
      top := order[idx];
      MinOverKeys(order, prio, idx);
      RemoveAt(order, idx);
      order := order[..idx] + order[idx + 1..];
      prio := prio - {top};
    }
  }

  /** The first minimum over the listed keys is a minimum over all keys. */
  lemma MinOverKeys<T>(order: seq<T>, prio: map<T, nat>, idx: nat)
    requires idx < |order| && forall k :: k in prio <==> k in order
    requires forall j :: 0 <= j < |order| ==> prio[order[idx]] <= prio[order[j]]
    ensures forall k :: k in prio ==> prio[order[idx]] <= prio[k]
  {
    forall k | k in prio ensures prio[order[idx]] <= prio[k] {
      var j :| 0 <= j < |order| && order[j] == k;
    }
  }

  /** Removing position i from a duplicate-free sequence removes exactly s[i]. */
  lemma RemoveAt<T>(s: seq<T>, i: nat)
    requires i < |s| && forall a, b :: 0 <= a < b < |s| ==> s[a] != s[b]
    ensures var r := s[..i] + s[i + 1..];
      && |r| == |s| - 1
      && (forall a, b :: 0 <= a < b < |r| ==> r[a] != r[b])
      && (forall k :: k in r <==> k in s && k != s[i])
  {
    var r := s[..i] + s[i + 1..];
    assert forall a :: 0 <= a < |r| ==> r[a] == if a < i then s[a] else s[a + 1];
    forall k ensures k in r <==> k in s && k != s[i] {
      if k in s && k != s[i] {
        var j :| 0 <= j < |s| && s[j] == k;
        if j < i { assert r[j] == k; } else { assert r[j - 1] == k; }
      }
    }
  }

  /** A duplicate-free sequence listing a set has the set's size. */
  lemma {:induction false} DistinctSize<T>(s: seq<T>, keys: set<T>)
    requires forall i, j :: 0 <= i < j < |s| ==> s[i] != s[j]
    requires forall k :: k in s <==> k in keys
    ensures |s| == |keys|
  {
    if s != [] {
      var last := s[|s| - 1];
      var init := s[..|s| - 1];
      forall k ensures k in init <==> k in keys - {last} {
        if k in init {
          var j :| 0 <= j < |init| && init[j] == k;
          assert s[j] == k;
        }
        if k in keys - {last} {
          var j :| 0 <= j < |s| && s[j] == k;
          assert init[j] == k;
        }
      }
      DistinctSize(init, keys - {last});
    } else {
      assert forall k :: k !in keys;
      assert keys == {};
    }
  }
}
