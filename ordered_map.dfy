/**
 * Insertion-ordered maps (`LinkedHashMap`) as association lists: `put`
 * replaces the value of a present key where it stands and appends an
 * absent key at the end, so the keys keep their first-insertion order.
 */
module OrderedMap {
  import opened Wrappers
  import OrderedSet

  /** The keys, in iteration order. */
  function Keys<K, V>(m: seq<(K, V)>): (r: seq<K>)
    ensures |r| == |m| && forall i :: 0 <= i < |m| ==> r[i] == m[i].0
  {
    if |m| == 0 then [] else [m[0].0] + Keys(m[1..])
  }

  /** `map.get(k)`; `None` for an absent key. */
  function Get<K(==), V>(m: seq<(K, V)>, k: K): Option<V> {
    if |m| == 0 then None else if m[0].0 == k then Some(m[0].1) else Get(m[1..], k)
  }

  /** `map.put(k, v)` */
  function Put<K(==), V>(m: seq<(K, V)>, k: K, v: V): (r: seq<(K, V)>)
    ensures |r| == if k in Keys(m) then |m| else |m| + 1
  {
    if |m| == 0 then [(k, v)]
    else if m[0].0 == k then [(k, v)] + m[1..]
    else [m[0]] + Put(m[1..], k, v)
  }

  /** A key is found exactly when it is one of the keys. */
  lemma {:induction false} GetPresent<K, V>(m: seq<(K, V)>, k: K)
    ensures Get(m, k).Some? <==> k in Keys(m)
  {
    if |m| > 0 {
      GetPresent(m[1..], k);
      assert Keys(m) == [m[0].0] + Keys(m[1..]);
    }
  }

  /** After `put(k, v)`, `get(k)` is `v` and every other key reads as before. */
  lemma {:induction false} PutGet<K, V>(m: seq<(K, V)>, k: K, v: V, x: K)
    ensures Get(Put(m, k, v), x) == if x == k then Some(v) else Get(m, x)
  {
    if |m| > 0 && m[0].0 != k {
      PutGet(m[1..], k, v, x);
    }
  }

  /** `put` adds the key to the key order the way `LinkedHashSet.add` does. */
  lemma {:induction false} PutKeys<K(!new), V>(m: seq<(K, V)>, k: K, v: V)
    ensures Keys(Put(m, k, v)) == OrderedSet.Add(Keys(m), k)
  {
    if |m| > 0 && m[0].0 != k {
      PutKeys(m[1..], k, v);
      assert Keys(m) == [m[0].0] + Keys(m[1..]);
    }
  }

  /** Keys are never repeated once `put` is the only way in. */
  lemma PutDistinct<K(!new), V>(m: seq<(K, V)>, k: K, v: V)
    requires OrderedSet.Distinct(Keys(m))
    ensures OrderedSet.Distinct(Keys(Put(m, k, v)))
  {
    PutKeys(m, k, v);
  }

  /** `put` of a new key appends it. */
  lemma {:induction false} PutFresh<K(!new), V>(m: seq<(K, V)>, k: K, v: V)
    requires k !in Keys(m)
    ensures Put(m, k, v) == m + [(k, v)]
  {
    if |m| > 0 {
      assert Keys(m)[0] == m[0].0;
      assert Keys(m[1..]) == Keys(m)[1..];
      PutFresh(m[1..], k, v);
      assert m == [m[0]] + m[1..];
    }
  }

  /** With distinct keys, each entry is what `get` finds for its key. */
  lemma {:induction false} GetAt<K(!new), V>(m: seq<(K, V)>, k: nat)
    requires k < |m| && OrderedSet.Distinct(Keys(m))
    ensures Get(m, m[k].0) == Some(m[k].1)
  {
    if k > 0 {
      assert Keys(m)[0] != Keys(m)[k];
      assert Keys(m[1..]) == Keys(m)[1..];
      GetAt(m[1..], k - 1);
    }
  }
}
