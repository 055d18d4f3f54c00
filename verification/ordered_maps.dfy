/** PHP's array used as a dictionary: a map that remembers the order in
    which its keys were first inserted. Writing to an existing key keeps
    its position; `unset` removes the key; a new key goes to the end.
    Every collection the library keeps (tasks of a set, registered
    servers, worker functions, open connections, the retry table) is one
    of these. */
module OrderedMaps {
  import opened Errors

  datatype OMap<K(==,!new), V> = OMap(keys: seq<K>, entries: map<K, V>) {

    /** Keys are listed once each, and exactly the keys of `entries`. */
    ghost predicate Valid() {
      && (forall i, j :: 0 <= i < j < |keys| ==> keys[i] != keys[j])
      && (forall k :: k in keys <==> k in entries)
    }

    /** `$a[$k] = $v`. */
    function Put(k: K, v: V): (r: OMap<K, V>)
      requires Valid()
      ensures r.Valid()
      ensures r.entries == entries[k := v]
      ensures k in entries ==> r.keys == keys
      ensures k !in entries ==> r.keys == keys + [k]
    {
      if k in entries then OMap(keys, entries[k := v]) else OMap(keys + [k], entries[k := v])
    }

    /** `unset($a[$k])`; absent keys leave the map as it is. */
    function Remove(k: K): (r: OMap<K, V>)
      requires Valid()
      ensures r.Valid()
      ensures r.entries == entries - {k}
      ensures r.keys == Without(keys, k)
      ensures k !in entries ==> r == this
    {
      WithoutAbsent(keys, k);
      OMap(Without(keys, k), entries - {k})
    }

    /** `$a[$k] ?? null`. */
    function Get(k: K): (r: Option<V>)
      ensures r.Some? <==> k in entries
      ensures r.Some? ==> r.value == entries[k]
    {
      if k in entries then Some(entries[k]) else None
    }

    /** `array_values($a)`: the values in key order. */
    function Values(): (r: seq<V>)
      requires Valid()
      ensures |r| == |keys|
      ensures forall i :: 0 <= i < |keys| ==> r[i] == entries[keys[i]]
    {
      seq(|keys|, i requires 0 <= i < |keys| => entries[keys[i]])
    }

    function Count(): nat {
      |keys|
    }
  }

  function Empty<K(==,!new), V>(): (r: OMap<K, V>)
    ensures r.Valid() && r.keys == [] && r.entries == map[]
  {
    OMap([], map[])
  }

  /** The keys other than `k`, in their order. */
  function Without<K(==,!new)>(s: seq<K>, k: K): (r: seq<K>)
    ensures forall x :: x in r <==> x in s && x != k
    ensures |r| <= |s|
  {
    if |s| == 0 then []
    else if s[0] == k then Without(s[1..], k)
    else [s[0]] + Without(s[1..], k)
  }

  lemma {:induction false} WithoutAbsent<K(!new)>(s: seq<K>, k: K)
    ensures k !in s ==> Without(s, k) == s
    ensures (forall i, j :: 0 <= i < j < |s| ==> s[i] != s[j]) ==>
      forall i, j :: 0 <= i < j < |Without(s, k)| ==> Without(s, k)[i] != Without(s, k)[j]
  {
    if |s| > 0 {
      WithoutAbsent(s[1..], k);
      if (forall i, j :: 0 <= i < j < |s| ==> s[i] != s[j]) {
        assert forall i, j :: 0 <= i < j < |s[1..]| ==> s[1..][i] != s[1..][j] by {
          forall i, j | 0 <= i < j < |s[1..]|
            ensures s[1..][i] != s[1..][j]
          {
            assert s[1..][i] == s[i + 1] && s[1..][j] == s[j + 1];
          }
        }
        if s[0] != k {
          var t := Without(s[1..], k);
          assert s[0] !in s[1..];
          assert s[0] !in t;
          var r := [s[0]] + t;
          forall i, j | 0 <= i < j < |r|
            ensures r[i] != r[j]
          {
            if i == 0 {
              assert r[j] == t[j - 1] && r[j] in t;
            } else {
              assert r[i] == t[i - 1] && r[j] == t[j - 1];
            }
          }
        }
      }
    }
  }

  /** Inserting a fresh key and unsetting it again restores the map. */
  lemma RemoveAfterPut<K(!new), V>(m: OMap<K, V>, k: K, v: V)
    requires m.Valid() && k !in m.entries
    ensures m.Put(k, v).Remove(k) == m
  {
    var r := m.Put(k, v).Remove(k);
    WithoutAppended(m.keys, k);
    assert r.entries == m.entries;
  }

  lemma {:induction false} WithoutAppended<K(!new)>(s: seq<K>, k: K)
    requires k !in s
    ensures Without(s + [k], k) == s
  {
    if |s| == 0 {
      assert s + [k] == [k];
      assert [k][1..] == [];
    } else {
      assert (s + [k])[1..] == s[1..] + [k];
      WithoutAppended(s[1..], k);
      assert [s[0]] + s[1..] == s;
    }
  }

  /** Overwriting a present key changes its value and nothing else, and
      writing the value it already has is a no-op. */
  lemma PutExisting<K(!new), V>(m: OMap<K, V>, k: K, v: V)
    requires m.Valid() && k in m.entries
    ensures m.Put(k, v).keys == m.keys
    ensures m.Put(k, v).Count() == m.Count()
    ensures m.entries[k] == v ==> m.Put(k, v) == m
  {
  }
}
