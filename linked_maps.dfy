/**
 * Insertion-ordered maps, as java.util.LinkedHashMap: the entries are kept in the
 * order in which their keys were first inserted, and putting a key that is already
 * present replaces its value without moving the entry.
 */
module LinkedMaps {
  import opened Options
  import opened Sequences

  type LinkedMap<K, V> = seq<(K, V)>

  function Keys<K, V>(m: LinkedMap<K, V>): (ks: seq<K>)
    ensures |ks| == |m| && forall i :: 0 <= i < |m| ==> ks[i] == m[i].0
  {
    if m == [] then [] else [m[0].0] + Keys(m[1..])
  }

  function Values<K, V>(m: LinkedMap<K, V>): (vs: seq<V>)
    ensures |vs| == |m| && forall i :: 0 <= i < |m| ==> vs[i] == m[i].1
  {
    if m == [] then [] else [m[0].1] + Values(m[1..])
  }

  /** The value stored under `k`, if any. */
  function Get<K(==,!new), V>(m: LinkedMap<K, V>, k: K): Option<V>
  {
    if m == [] then None
    else if m[0].0 == k then Some(m[0].1)
    else Get(m[1..], k)
  }

  /** A key has a value exactly when it is one of the map's keys. */
  lemma {:induction false} GetSomeIffKey<K(!new), V>(m: LinkedMap<K, V>, k: K)
    ensures Get(m, k).Some? <==> k in Keys(m)
  {
    if m != [] {
      GetSomeIffKey(m[1..], k);
    }
  }

  /** `m[k] = v` on a LinkedHashMap. */
  function Put<K(==,!new), V>(m: LinkedMap<K, V>, k: K, v: V): (r: LinkedMap<K, V>)
    ensures Get(r, k) == Some(v)
    ensures forall k' :: k' != k ==> Get(r, k') == Get(m, k')
    ensures Keys(r) == if k in Keys(m) then Keys(m) else Keys(m) + [k]
  {
    if m == [] then [(k, v)]
    else if m[0].0 == k then
      var r := [(k, v)] + m[1..];
      assert r[1..] == m[1..];
      r
    else
      var rest := Put(m[1..], k, v);
      var r := [m[0]] + rest;
      assert r[1..] == rest;
      r
  }

  /** Puts every key of `ks`, in order, with the value `v`. */
  function PutEach<K(==,!new), V>(m: LinkedMap<K, V>, ks: seq<K>, v: V): (r: LinkedMap<K, V>)
    ensures forall k :: k in ks ==> Get(r, k) == Some(v)
    ensures forall k :: k !in ks ==> Get(r, k) == Get(m, k)
  {
    if ks == [] then m
    else
      var r := Put(PutEach(m, ks[..|ks| - 1], v), ks[|ks| - 1], v);
      assert forall k :: k in ks ==> k in ks[..|ks| - 1] || k == ks[|ks| - 1];
      r
  }

  /** `m.putAll(n)`: the entries of `n` put into `m` one by one, in their order. */
  function PutAll<K(==,!new), V>(m: LinkedMap<K, V>, n: LinkedMap<K, V>): (r: LinkedMap<K, V>)
    ensures forall k :: k in Keys(n) ==> Get(r, k).Some?
    ensures forall k :: k !in Keys(n) ==> Get(r, k) == Get(m, k)
  {
    if n == [] then m
    else
      var init := n[..|n| - 1];
      var last := n[|n| - 1];
      assert Keys(n) == Keys(init) + [last.0];
      Put(PutAll(m, init), last.0, last.1)
  }

  /** A put never repeats a key. */
  lemma PutKeepsDistinct<K(!new), V>(m: LinkedMap<K, V>, k: K, v: V)
    requires NoDuplicates(Keys(m))
    ensures NoDuplicates(Keys(Put(m, k, v)))
  {
    var ks := Keys(m);
    if k !in ks {
      assert Keys(Put(m, k, v)) == ks + [k];
      forall i, j | 0 <= i < j < |ks| + 1 ensures (ks + [k])[i] != (ks + [k])[j] {
        assert (ks + [k])[i] == ks[i];
        if j == |ks| {
          assert ks[i] in ks;
        }
      }
    }
  }

  lemma {:induction false} PutEachKeepsDistinct<K(!new), V>(m: LinkedMap<K, V>, ks: seq<K>, v: V)
    requires NoDuplicates(Keys(m))
    ensures NoDuplicates(Keys(PutEach(m, ks, v)))
  {
    if ks != [] {
      PutEachKeepsDistinct(m, ks[..|ks| - 1], v);
      PutKeepsDistinct(PutEach(m, ks[..|ks| - 1], v), ks[|ks| - 1], v);
    }
  }

  lemma {:induction false} PutAllKeepsDistinct<K(!new), V>(m: LinkedMap<K, V>, n: LinkedMap<K, V>)
    requires NoDuplicates(Keys(m))
    ensures NoDuplicates(Keys(PutAll(m, n)))
  {
    if n != [] {
      PutAllKeepsDistinct(m, n[..|n| - 1]);
      PutKeepsDistinct(PutAll(m, n[..|n| - 1]), n[|n| - 1].0, n[|n| - 1].1);
    }
  }

  /**
   * When the added map has no repeated key (as a Map's entries never do), every
   * key of it looks up, after `putAll`, the value it has there.
   */
  lemma {:induction false} PutAllLookup<K(!new), V>(m: LinkedMap<K, V>, n: LinkedMap<K, V>, k: K)
    requires NoDuplicates(Keys(n)) && k in Keys(n)
    ensures Get(PutAll(m, n), k) == Get(n, k)
  {
    var init := n[..|n| - 1];
    var last := n[|n| - 1];
    GetLast(n, k);
    assert Keys(init) == Keys(n)[..|n| - 1];
    if k != last.0 {
      PutAllLookup(m, init, k);
    } else {
      GetSomeIffKey(init, k);
    }
  }

  /** Looking up a map in terms of all but its last entry. */
  lemma {:induction false} GetLast<K(!new), V>(m: LinkedMap<K, V>, x: K)
    requires m != []
    ensures var init := m[..|m| - 1];
      Get(m, x) == if Get(init, x).Some? then Get(init, x) else if x == m[|m| - 1].0 then Some(m[|m| - 1].1) else None
  {
    if |m| > 1 {
      GetLast(m[1..], x);
      assert m[1..][..|m| - 2] == m[..|m| - 1][1..];
    }
  }

  /** `for (k in ks) m[k] = v`. */
  method PutEachInOrder<K(==,!new), V>(m: LinkedMap<K, V>, ks: seq<K>, v: V) returns (r: LinkedMap<K, V>)
    ensures r == PutEach(m, ks, v)
  {
    r := m;
    for i := 0 to |ks|
      invariant r == PutEach(m, ks[..i], v)
    {
      assert ks[..i + 1][..i] == ks[..i];
      r := Put(r, ks[i], v);
    }
    assert ks[..|ks|] == ks;
  }
}
