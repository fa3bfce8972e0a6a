/**
 * A JavaScript `Map<string, V>`: its entries in insertion order. `set` on a
 * key already present replaces the value in place, on a new key appends an
 * entry; iteration (`values()`, `keys()`) follows the entries' order.
 */
module OrderedMaps {
  import opened Wrappers

  type OrderedMap<V> = seq<(string, V)>

  /** `map.keys()` */
  function Keys<V>(m: OrderedMap<V>): (r: seq<string>)
    ensures |r| == |m|
  {
    if m == [] then [] else [m[0].0] + Keys(m[1..])
  }

  /** `map.values()` */
  function Values<V>(m: OrderedMap<V>): (r: seq<V>)
    ensures |r| == |m|
  {
    if m == [] then [] else [m[0].1] + Values(m[1..])
  }

  /** The keys are the entries' first components, in order. */
  lemma {:induction false} KeysAt<V>(m: OrderedMap<V>)
    ensures forall i :: 0 <= i < |m| ==> Keys(m)[i] == m[i].0
  {
    if m != [] {
      KeysAt(m[1..]);
    }
  }

  /** The values are the entries' second components, in order. */
  lemma {:induction false} ValuesAt<V>(m: OrderedMap<V>)
    ensures forall i :: 0 <= i < |m| ==> Values(m)[i] == m[i].1
  {
    if m != [] {
      ValuesAt(m[1..]);
    }
  }

  /** No key occurs twice, as in every JavaScript map. */
  predicate UniqueKeys<V>(m: OrderedMap<V>) {
    forall i, j :: 0 <= i < j < |m| ==> m[i].0 != m[j].0
  }

  /** `map.get(k)`: the value of the first entry with key `k`, if any. */
  function Get<V>(m: OrderedMap<V>, k: string): (r: Option<V>)
    ensures r.Some? ==> k in Keys(m)
  {
    if m == [] then None
    else if m[0].0 == k then Some(m[0].1)
    else
      assert Keys(m) == [m[0].0] + Keys(m[1..]);
      Get(m[1..], k)
  }

  /** `get` finds exactly the keys the map has, with a value stored under the key. */
  lemma {:induction false} GetFinds<V>(m: OrderedMap<V>, k: string)
    ensures Get(m, k).Some? <==> k in Keys(m)
    ensures Get(m, k).Some? ==> (k, Get(m, k).value) in m
  {
    if m != [] {
      assert Keys(m) == [m[0].0] + Keys(m[1..]);
      if m[0].0 != k {
        GetFinds(m[1..], k);
      }
    }
  }

  /** `map.set(k, v)`: replaces the value of an existing key in place, or appends a new entry. */
  function Set<V>(m: OrderedMap<V>, k: string, v: V): (r: OrderedMap<V>)
    ensures |r| == |m| || |r| == |m| + 1
  {
    if m == [] then [(k, v)]
    else if m[0].0 == k then [(k, v)] + m[1..]
    else [m[0]] + Set(m[1..], k, v)
  }

  /** After `set(k, v)`, `get(k)` is `v` and every other key keeps its value. */
  lemma {:induction false} SetGet<V>(m: OrderedMap<V>, k: string, v: V)
    ensures Get(Set(m, k, v), k) == Some(v)
    ensures forall k' :: k' != k ==> Get(Set(m, k, v), k') == Get(m, k')
  {
    if m != [] && m[0].0 != k {
      SetGet(m[1..], k, v);
      assert Set(m, k, v)[1..] == Set(m[1..], k, v);
    }
  }

  /** `set` keeps the key order; a new key goes last. */
  lemma {:induction false} SetKeys<V>(m: OrderedMap<V>, k: string, v: V)
    ensures k in Keys(m) ==> Keys(Set(m, k, v)) == Keys(m)
    ensures k !in Keys(m) ==> Keys(Set(m, k, v)) == Keys(m) + [k]
  {
    if m == [] {
    } else if m[0].0 == k {
      assert Keys(Set(m, k, v)) == [k] + Keys(m[1..]);
      assert Keys(m) == [k] + Keys(m[1..]);
    } else {
      SetKeys(m[1..], k, v);
      var t := Set(m[1..], k, v);
      assert Set(m, k, v)[1..] == t;
      assert Keys(m) == [m[0].0] + Keys(m[1..]);
      assert Keys(Set(m, k, v)) == [m[0].0] + Keys(t);
    }
  }

  /** `map.delete(k)` */
  function Delete<V>(m: OrderedMap<V>, k: string): (r: OrderedMap<V>)
    ensures |r| <= |m|
  {
    if m == [] then []
    else if m[0].0 == k then m[1..]
    else [m[0]] + Delete(m[1..], k)
  }

  /** `delete(k)` leaves every other key's value, removes `k` from a map with unique keys, and adds no entry. */
  lemma {:induction false} DeleteGet<V>(m: OrderedMap<V>, k: string)
    ensures forall k' :: k' != k ==> Get(Delete(m, k), k') == Get(m, k')
    ensures UniqueKeys(m) ==> Get(Delete(m, k), k) == None
    ensures forall i :: 0 <= i < |Delete(m, k)| ==> Delete(m, k)[i] in m
  {
    if m == [] {
    } else if m[0].0 == k {
      if UniqueKeys(m) {
        GetFinds(m[1..], k);
        KeysAt(m[1..]);
        forall j | 0 <= j < |m| - 1 ensures Keys(m[1..])[j] != k {
          assert m[1..][j] == m[j + 1];
        }
      }
    } else {
      DeleteGet(m[1..], k);
      var t := Delete(m[1..], k);
      assert Delete(m, k)[1..] == t;
      forall i | 0 <= i < |Delete(m, k)| ensures Delete(m, k)[i] in m {
        if i > 0 {
          assert Delete(m, k)[i] == t[i - 1];
        }
      }
      if UniqueKeys(m) {
        assert UniqueKeys(m[1..]);
      }
    }
  }

  /** Keys stay unique under `set`. */
  lemma SetKeepsUnique<V>(m: OrderedMap<V>, k: string, v: V)
    requires UniqueKeys(m)
    ensures UniqueKeys(Set(m, k, v))
  {
    var r := Set(m, k, v);
    KeysAt(r);
    KeysAt(m);
    SetKeys(m, k, v);
    forall i, j | 0 <= i < j < |r| ensures r[i].0 != r[j].0 {
      assert Keys(r)[i] == r[i].0 && Keys(r)[j] == r[j].0;
      assert Keys(m)[i] == m[i].0;
      if j < |m| {
        assert Keys(m)[j] == m[j].0;
      }
    }
  }

  /** Keys stay unique under `delete`. */
  lemma {:induction false} DeleteKeepsUnique<V>(m: OrderedMap<V>, k: string)
    requires UniqueKeys(m)
    ensures UniqueKeys(Delete(m, k))
  {
    if m != [] && m[0].0 != k {
      DeleteKeepsUnique(m[1..], k);
      var t := Delete(m[1..], k);
      DeleteGet(m[1..], k);
      forall j | 0 <= j < |t| ensures t[j].0 != m[0].0 {
        assert t[j] in m[1..];
      }
    }
  }

  /** A second `set` of the same key replaces the first. */
  lemma SetTwice<V>(m: OrderedMap<V>, k: string, v1: V, v2: V)
    ensures Set(Set(m, k, v1), k, v2) == Set(m, k, v2)
  {
    if m != [] && m[0].0 != k {
      SetTwice(m[1..], k, v1, v2);
      assert Set(m, k, v1)[1..] == Set(m[1..], k, v1);
    }
  }
}
