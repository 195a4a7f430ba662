/** Python dictionaries: a map together with the insertion order that iteration follows. */
module Dicts {
  datatype Dict<K(==), V> = Dict(keys: seq<K>, at: map<K, V>) {
    /** The order lists the keys of the map and nothing else. */
    ghost predicate Listing() {
      && (forall k | k in keys :: k in at)
      && (forall k | k in at :: k in keys)
    }

    /** ... each exactly once. */
    ghost predicate Valid() {
      Listing() && Distinct(keys)
    }

    /** `d[k] = v`: an existing key keeps its place. */
    function Set(k: K, v: V): Dict<K, V> {
      Dict(if k in at then keys else keys + [k], at[k := v])
    }

    /** `d.pop(k, None)`. */
    function Remove(k: K): Dict<K, V> {
      Dict(Without(keys, k), at - {k})
    }

    /** `OrderedDict.move_to_end(k)`. */
    function MoveToEnd(k: K): Dict<K, V> {
      Dict(Without(keys, k) + [k], at)
    }
  }

  function Empty<K(==), V>(): Dict<K, V> {
    Dict([], map[])
  }

  ghost predicate Distinct<T>(s: seq<T>) {
    forall i, j :: 0 <= i < j < |s| ==> s[i] != s[j]
  }

  /** `s` without the first occurrence of `k`. */
  function Without<K(==)>(s: seq<K>, k: K): seq<K> {
    if s == [] then [] else if s[0] == k then s[1..] else [s[0]] + Without(s[1..], k)
  }

  lemma SetValid<K, V>(d: Dict<K, V>, k: K, v: V)
    requires d.Valid()
    ensures d.Set(k, v).Valid()
  {
    var e := d.Set(k, v);
    assert forall x | x in e.at :: x in d.at || x == k;
    if k !in d.at {
      assert e.keys[|d.keys|] == k;
    }
    forall x | x in e.at ensures x in e.keys {
      if x in d.at {
        assert x in d.keys;
      }
    }
  }

  lemma {:induction false} WithoutElements<K>(s: seq<K>, k: K)
    requires Distinct(s)
    ensures forall x | x in Without(s, k) :: x in s && x != k
    ensures forall x | x in s :: x == k || x in Without(s, k)
    ensures Distinct(Without(s, k))
  {
    if s != [] {
      assert s == [s[0]] + s[1..];
      assert s[0] !in s[1..];
      if s[0] != k {
        WithoutElements(s[1..], k);
      }
    }
  }

  lemma {:induction false} WithoutKeepsOthers<K>(s: seq<K>, k: K, x: K)
    requires x in s && x != k
    ensures x in Without(s, k)
  {
    if s[0] != k && s[0] != x {
      WithoutKeepsOthers(s[1..], k, x);
    }
  }

  lemma RemoveValid<K, V>(d: Dict<K, V>, k: K)
    requires d.Valid()
    ensures d.Remove(k).Valid()
  {
    WithoutElements(d.keys, k);
  }

  lemma MoveToEndValid<K, V>(d: Dict<K, V>, k: K)
    requires d.Valid() && k in d.at
    ensures d.MoveToEnd(k).Valid()
    ensures |d.MoveToEnd(k).keys| == |d.keys|
  {
    WithoutElements(d.keys, k);
    WithoutShortens(d.keys, k);
    assert d.MoveToEnd(k).keys[|d.keys| - 1] == k;
  }

  lemma {:induction false} WithoutShortens<K>(s: seq<K>, k: K)
    ensures |Without(s, k)| == if k in s then |s| - 1 else |s|
  {
    if s != [] && s[0] != k {
      assert s == [s[0]] + s[1..];
      WithoutShortens(s[1..], k);
    }
  }
}
