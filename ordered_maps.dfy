/** A JavaScript `Map`: lookups plus the insertion order its iteration follows. */
module OrderedMaps {
  import opened Wrappers

  datatype OMap<K(==), V> = OMap(keys: seq<K>, m: map<K, V>) {

    ghost predicate Valid() {
      (forall i, j :: 0 <= i < j < |keys| ==> keys[i] != keys[j]) &&
      m.Keys == (set i | 0 <= i < |keys| :: keys[i])
    }

    function Get(k: K): Option<V> {
      if k in m then Some(m[k]) else None
    }

    /** `map.set(k, v)`: a new key goes last, an existing key keeps its place. */
    function Put(k: K, v: V): (r: OMap<K, V>)
      requires Valid()
      ensures r.Valid()
      ensures r.m == m[k := v]
      ensures k in keys ==> r.keys == keys
      ensures k !in keys ==> r.keys == keys + [k]
    {
      if k in keys then OMap(keys, m[k := v])
      else
        var ks := keys + [k];
        assert (set i | 0 <= i < |ks| :: ks[i]) == (set i | 0 <= i < |keys| :: keys[i]) + {k} by {
          assert ks[|keys|] == k;
          forall i | 0 <= i < |keys|
            ensures keys[i] in (set i | 0 <= i < |ks| :: ks[i])
          {
            assert ks[i] == keys[i];
          }
          forall i | 0 <= i < |ks|
            ensures ks[i] in (set i | 0 <= i < |keys| :: keys[i]) + {k}
          {
            if i < |keys| {
              assert ks[i] == keys[i];
            }
          }
        }
        OMap(ks, m[k := v])
    }

    /** The values in iteration order. */
    function Values(): (r: seq<V>)
      requires Valid()
      ensures |r| == |keys|
      ensures forall i :: 0 <= i < |keys| ==> r[i] == m[keys[i]]
    {
      seq(|keys|, i requires 0 <= i < |keys| && Valid() => m[keys[i]])
    }
  }

  function EmptyMap<K(==), V>(): (r: OMap<K, V>)
    ensures r.Valid() && r.keys == []
  {
    OMap([], map[])
  }

  /** `b` is `a` after some `set` calls: the old keys keep their places and new ones follow. */
  ghost predicate Grown<K, V>(a: OMap<K, V>, b: OMap<K, V>) {
    |a.keys| <= |b.keys| && b.keys[..|a.keys|] == a.keys && a.m.Keys <= b.m.Keys
  }

  lemma GrownTrans<K, V>(a: OMap<K, V>, b: OMap<K, V>, c: OMap<K, V>)
    requires Grown(a, b) && Grown(b, c)
    ensures Grown(a, c)
  {
    assert c.keys[..|a.keys|] == c.keys[..|b.keys|][..|a.keys|];
  }

  lemma PutGrown<K, V>(a: OMap<K, V>, k: K, v: V)
    requires a.Valid()
    ensures Grown(a, a.Put(k, v))
  {
    assert (a.keys + [k])[..|a.keys|] == a.keys;
  }
}
