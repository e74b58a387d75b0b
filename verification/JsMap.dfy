/**
 * A JavaScript `Map`: keys in insertion order. Setting a key that is present replaces its value
 * in place; deleting it and setting it again moves it to the end.
 */
module JsMaps {
  predicate Distinct<K(==)>(ks: seq<K>) {
    forall i, j :: 0 <= i < j < |ks| ==> ks[i] != ks[j]
  }

  function SetOf<K(==)>(ks: seq<K>): set<K> {
    set k | k in ks
  }

  /** `ks` without its first `k`. */
  function Remove<K(==)>(ks: seq<K>, k: K): (r: seq<K>)
    ensures k !in ks ==> r == ks
    ensures k in ks ==> |r| == |ks| - 1
  {
    if ks == [] then [] else if ks[0] == k then ks[1..] else [ks[0]] + Remove(ks[1..], k)
  }

  lemma {:induction false} RemoveAt<K>(ks: seq<K>, i: nat)
    requires Distinct(ks) && i < |ks|
    ensures Remove(ks, ks[i]) == ks[..i] + ks[i + 1..]
    ensures Distinct(Remove(ks, ks[i]))
    ensures forall k :: k in Remove(ks, ks[i]) <==> k in ks && k != ks[i]
  {
    if i > 0 {
      assert ks[1..][i - 1] == ks[i];
      RemoveAt(ks[1..], i - 1);
      assert ks[..i] + ks[i + 1..] == [ks[0]] + (ks[1..][..i - 1] + ks[1..][i..]);
    }
  }

  lemma RemoveKeepsOthers<K>(ks: seq<K>, k: K)
    requires Distinct(ks)
    ensures Distinct(Remove(ks, k))
    ensures forall x :: x in Remove(ks, k) <==> x in ks && x != k
  {
    if k in ks {
      var i :| 0 <= i < |ks| && ks[i] == k;
      RemoveAt(ks, i);
    }
  }

  datatype OrderedMap<K(==), V> = OrderedMap(keys: seq<K>, values: map<K, V>) {
    ghost predicate Valid() {
      Distinct(keys) && values.Keys == SetOf(keys)
    }

    function Deleted(k: K): OrderedMap<K, V> {
      OrderedMap(Remove(keys, k), values - {k})
    }

    function Updated(k: K, v: V): OrderedMap<K, V> {
      OrderedMap(if k in values then keys else keys + [k], values[k := v])
    }
  }

  lemma KeysAreValues<K, V>(m: OrderedMap<K, V>)
    requires m.Valid()
    ensures forall k :: k in m.keys ==> k in m.values
    ensures forall k :: k in m.values ==> k in m.keys
  {
    forall k | k in m.keys
      ensures k in m.values
    {
      assert k in SetOf(m.keys);
    }
    forall k | k in m.values
      ensures k in m.keys
    {
      assert k in SetOf(m.keys);
    }
  }

  lemma DeletedValid<K, V>(m: OrderedMap<K, V>, k: K)
    requires m.Valid()
    ensures m.Deleted(k).Valid()
  {
    RemoveKeepsOthers(m.keys, k);
    assert (m.values - {k}).Keys == SetOf(Remove(m.keys, k));
  }

  lemma UpdatedValid<K, V>(m: OrderedMap<K, V>, k: K, v: V)
    requires m.Valid()
    ensures m.Updated(k, v).Valid()
  {
    assert k in m.values <==> k in SetOf(m.keys);
    assert m.values[k := v].Keys == SetOf(m.Updated(k, v).keys);
  }

  class JsMap<K(==), V> {
    var keys: seq<K>
    var values: map<K, V>

    ghost predicate Valid()
      reads this
    {
      View().Valid()
    }

    ghost function View(): OrderedMap<K, V>
      reads this
    {
      OrderedMap(keys, values)
    }

    constructor ()
      ensures Valid() && View() == OrderedMap([], map[])
    {
      keys, values := [], map[];
    }

    function Size(): nat
      reads this
    {
      |keys|
    }

    method Set(k: K, v: V)
      requires Valid()
      modifies this
      ensures Valid() && View() == old(View()).Updated(k, v)
    {
      UpdatedValid(View(), k, v);
      if k !in values {
        keys := keys + [k];
      }
      values := values[k := v];
    }

    method Delete(k: K)
      requires Valid()
      modifies this
      ensures Valid() && View() == old(View()).Deleted(k)
    {
      DeletedValid(View(), k);
      keys := Remove(keys, k);
      values := values - {k};
    }

    method Clear()
      modifies this
      ensures Valid() && View() == OrderedMap([], map[])
    {
      keys, values := [], map[];
    }
  }
}
