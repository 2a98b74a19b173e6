/** Python's `dict`: keys keep the place of their first insertion, a later write replaces the value only.

    `Dict` is the data structure the loops update. `Distinct` and `LastIndex` describe, without any dictionary, what a
    sequence of writes leaves behind: one entry per key, in order of first appearance, with the last value written. */
module Dicts {

  predicate NoDup<K(==)>(ks: seq<K>) {
    forall i, j :: 0 <= i < j < |ks| ==> ks[i] != ks[j]
  }

  datatype Dict<K(==,!new), V> = Dict(order: seq<K>, items: map<K, V>) {

    ghost predicate Valid() {
      && NoDup(order)
      && (forall k :: k in order <==> k in items)
    }

    function Put(k: K, v: V): (d: Dict<K, V>)
      requires Valid()
      ensures d.Valid()
    {
      if k in items then Dict(order, items[k := v]) else Dict(order + [k], items[k := v])
    }

    function Values(): (vs: seq<V>)
      requires Valid()
      ensures |vs| == |order|
      ensures forall i :: 0 <= i < |vs| ==> vs[i] == items[order[i]]
    {
      seq(|order|, i requires 0 <= i < |order| => assert order[i] in order; items[order[i]])
    }
  }

  /** The different keys of `ks`, in order of first appearance. */
  function Distinct<K(==,!new)>(ks: seq<K>): (d: seq<K>)
    ensures NoDup(d)
    ensures forall k :: k in d <==> k in ks
  {
    if ks == [] then [] else
    var front := Distinct(ks[..|ks| - 1]);
    var last := ks[|ks| - 1];
    assert ks == ks[..|ks| - 1] + [last];
    if last in front then front else front + [last]
  }

  /** The last place of `k` in `ks`. */
  function LastIndex<K(==)>(ks: seq<K>, k: K): (i: nat)
    requires k in ks
    ensures i < |ks| && ks[i] == k
    ensures forall j :: i < j < |ks| ==> ks[j] != k
  {
    if ks[|ks| - 1] == k then |ks| - 1 else
    assert ks == ks[..|ks| - 1] + [ks[|ks| - 1]];
    LastIndex(ks[..|ks| - 1], k)
  }

  lemma {:induction false} DistinctPrefix<K(!new)>(ks: seq<K>, more: seq<K>)
    ensures |Distinct(ks)| <= |Distinct(ks + more)|
    ensures Distinct(ks + more)[..|Distinct(ks)|] == Distinct(ks)
  {
    if more == [] {
      assert ks + more == ks;
    } else {
      var shorter := more[..|more| - 1];
      assert (ks + more)[..|ks + more| - 1] == ks + shorter;
      DistinctPrefix(ks, shorter);
    }
  }
}
