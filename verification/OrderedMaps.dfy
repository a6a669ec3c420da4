/** The insertion-ordered `Map` of JavaScript: updating a key keeps its place, a new key goes to the end. */
module OrderedMaps {
  import opened Prelude

  datatype OrderedMap<K(==), V> = OrderedMap(keys: seq<K>, values: map<K, V>)
  {
    ghost predicate Valid() {
      NoDup(keys) && values.Keys == Elements(keys)
    }

    function Set(k: K, v: V): (m: OrderedMap<K, V>)
      requires Valid()
      ensures m.Valid() && m.values == values[k := v]
    {
      OrderedMap(if k in values then keys else keys + [k], values[k := v])
    }

    function Delete(k: K): (m: OrderedMap<K, V>)
      requires Valid()
      ensures m.Valid()
      ensures m.values == values - {k}
    {
      if k !in values then
        assert values - {k} == values;
        this
      else
        var i := IndexOf(keys, k);
        KeysWithout(keys, k, i);
        OrderedMap(keys[..i] + keys[i + 1..], values - {k})
    }
  }

  lemma KeysWithout<K>(keys: seq<K>, k: K, i: nat)
    requires NoDup(keys) && i < |keys| && keys[i] == k
    ensures var rest := keys[..i] + keys[i + 1..]; NoDup(rest) && Elements(rest) == Elements(keys) - {k}
  {
    var rest := keys[..i] + keys[i + 1..];
    assert forall j {:trigger rest[j]} :: 0 <= j < |rest| ==> rest[j] == keys[if j < i then j else j + 1];
    forall x | x in Elements(keys) - {k} ensures x in rest {
      var j :| 0 <= j < |keys| && keys[j] == x;
      assert rest[if j < i then j else j - 1] == x;
    }
  }

  lemma DeleteAt<K, V>(m: OrderedMap<K, V>, i: nat)
    requires m.Valid() && i < |m.keys|
    ensures m.Delete(m.keys[i]).keys == m.keys[..i] + m.keys[i + 1..]
  {
    IndexOfUnique(m.keys, i);
  }

  /** The other keys keep their places among each other. */
  lemma DeleteKeepsOrder<K, V>(m: OrderedMap<K, V>, before: seq<K>, k: K, after: seq<K>)
    requires m.Valid() && m.keys == before + [k] + after
    ensures m.Delete(k).keys == before + after
  {
    hide OrderedMap.Valid, OrderedMap.Delete;
    DeleteAt(m, |before|);
    assert m.keys[..|before|] == before && m.keys[|before| + 1..] == after;
  }

  function Empty<K, V>(): (m: OrderedMap<K, V>)
    ensures m.Valid()
  {
    OrderedMap([], map[])
  }
}
