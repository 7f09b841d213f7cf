/** The insertion-ordered map of section 24.1 of ECMA-262: setting a present key keeps its place. */
module OrderedMaps {
  import opened Sequences

  datatype OrderedMap<K(!new,==), V> = OrderedMap(keys: seq<K>, vals: map<K, V>)
  {
    ghost predicate Valid() {
      && Distinct(keys)
      && (forall k :: k in keys <==> k in vals)
    }

    function Set(k: K, v: V): OrderedMap<K, V> {
      OrderedMap(if k in vals then keys else keys + [k], vals[k := v])
    }

    function Values(): (r: seq<V>)
      requires Valid()
      ensures |r| == |keys| && forall i :: 0 <= i < |r| ==> keys[i] in vals && r[i] == vals[keys[i]]
    {
      seq(|keys|, i requires 0 <= i < |keys| => vals[keys[i]])
    }

    lemma SetValid(k: K, v: V)
      requires Valid()
      ensures Set(k, v).Valid()
    {
    }

    lemma ValuesMembers(v: V)
      requires Valid()
      ensures v in Values() <==> exists k :: k in vals && vals[k] == v
    {
      if k :| k in vals && vals[k] == v {
        var i :| 0 <= i < |keys| && keys[i] == k;
        assert Values()[i] == v;
      }
    }
  }

  function Empty<K(!new,==), V>(): OrderedMap<K, V> {
    OrderedMap([], map[])
  }
}
