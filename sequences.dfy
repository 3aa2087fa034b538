/**
 * Sequence operations the Kotlin code gets from its collection library:
 * filtering (`filter`, `ContainerUtil.filter`), and grouping by a key into an
 * insertion-ordered map (`groupingBy` into a LinkedHashMap), read back group by
 * group in the order the keys were first seen.
 */
module Sequences {

  /** The elements of `xs` that satisfy `keep`, in order. */
  function Filter<T>(xs: seq<T>, keep: T -> bool): seq<T>
  {
    if xs == [] then []
    else Filter(xs[..|xs| - 1], keep) + (if keep(xs[|xs| - 1]) then [xs[|xs| - 1]] else [])
  }

  lemma {:induction false} FilterMembers<T>(xs: seq<T>, keep: T -> bool)
    ensures forall x :: x in Filter(xs, keep) <==> x in xs && keep(x)
    ensures |Filter(xs, keep)| <= |xs|
  {
    if xs != [] {
      FilterMembers(xs[..|xs| - 1], keep);
      assert xs == xs[..|xs| - 1] + [xs[|xs| - 1]];
    }
  }

  /** `ys` can be obtained from `xs` by deleting elements. */
  predicate IsSubsequence<T(==)>(ys: seq<T>, xs: seq<T>)
  {
    if ys == [] then true
    else if xs == [] then false
    else if ys[|ys| - 1] == xs[|xs| - 1] then IsSubsequence(ys[..|ys| - 1], xs[..|xs| - 1])
    else IsSubsequence(ys, xs[..|xs| - 1])
  }

  lemma {:induction false} SubsequenceOfSelf<T>(xs: seq<T>)
    ensures IsSubsequence(xs, xs)
  {
    if xs != [] {
      SubsequenceOfSelf(xs[..|xs| - 1]);
    }
  }

  lemma {:induction false} FilterIsSubsequence<T>(xs: seq<T>, keep: T -> bool)
    ensures IsSubsequence(Filter(xs, keep), xs)
  {
    if xs != [] {
      var init := xs[..|xs| - 1];
      FilterIsSubsequence(init, keep);
      if keep(xs[|xs| - 1]) {
        assert Filter(xs, keep) == Filter(init, keep) + [xs[|xs| - 1]];
        assert Filter(xs, keep)[..|Filter(xs, keep)| - 1] == Filter(init, keep);
      } else {
        assert Filter(xs, keep) == Filter(init, keep);
        SubsequenceDropLast(Filter(init, keep), xs);
      }
    }
  }

  /** A subsequence of all but the last element is a subsequence of the whole. */
  lemma {:induction false} SubsequenceDropLast<T>(ys: seq<T>, xs: seq<T>)
    requires xs != [] && IsSubsequence(ys, xs[..|xs| - 1])
    ensures IsSubsequence(ys, xs)
    decreases |xs|, 0
  {
    if ys != [] && ys[|ys| - 1] == xs[|xs| - 1] {
      SubsequenceShorten(ys, xs[..|xs| - 1]);
    }
  }

  /** Dropping the last element of a subsequence keeps it a subsequence. */
  lemma {:induction false} SubsequenceShorten<T>(ys: seq<T>, xs: seq<T>)
    requires ys != [] && IsSubsequence(ys, xs)
    ensures IsSubsequence(ys[..|ys| - 1], xs)
    decreases |xs|, 1
  {
    var init := xs[..|xs| - 1];
    if ys[|ys| - 1] != xs[|xs| - 1] {
      SubsequenceShorten(ys, init);
    }
    SubsequenceDropLast(ys[..|ys| - 1], xs);
  }

  /** Appending the same element to both keeps a subsequence. */
  lemma SubsequenceSnoc<T>(ys: seq<T>, xs: seq<T>, a: T)
    requires IsSubsequence(ys, xs)
    ensures IsSubsequence(ys + [a], xs + [a])
  {
    assert (ys + [a])[..|ys|] == ys;
    assert (xs + [a])[..|xs|] == xs;
  }

  /** Appending an element to the whole keeps a subsequence. */
  lemma SubsequenceAppend<T>(ys: seq<T>, xs: seq<T>, a: T)
    requires IsSubsequence(ys, xs)
    ensures IsSubsequence(ys, xs + [a])
  {
    assert (xs + [a])[..|xs|] == xs;
    SubsequenceDropLast(ys, xs + [a]);
  }

  predicate NoDuplicates<T(==)>(xs: seq<T>)
  {
    forall i, j :: 0 <= i < j < |xs| ==> xs[i] != xs[j]
  }

  /** The keys of the elements of `xs`, each once, in the order they first occur. */
  function FirstSeen<T, K(==)>(xs: seq<T>, key: T -> K): seq<K>
  {
    if xs == [] then []
    else
      var ks := FirstSeen(xs[..|xs| - 1], key);
      var k := key(xs[|xs| - 1]);
      if k in ks then ks else ks + [k]
  }

  /** FirstSeen lists exactly the keys that occur. */
  lemma {:induction false} FirstSeenMembers<T, K>(xs: seq<T>, key: T -> K, k: K)
    ensures k in FirstSeen(xs, key) <==> exists i :: 0 <= i < |xs| && key(xs[i]) == k
  {
    if xs != [] {
      var m := |xs| - 1;
      var init := xs[..m];
      FirstSeenMembers(init, key, k);
      if k in FirstSeen(init, key) {
        var i :| 0 <= i < |init| && key(init[i]) == k;
        assert key(xs[i]) == k;
      }
      if exists i :: 0 <= i < |xs| && key(xs[i]) == k {
        var i :| 0 <= i < |xs| && key(xs[i]) == k;
        if i < m {
          assert key(init[i]) == k;
        }
      }
    }
  }

  /** FirstSeen lists each key once, and the keys of a prefix of `xs` come first. */
  lemma {:induction false} FirstSeenOrder<T, K>(xs: seq<T>, key: T -> K)
    ensures NoDuplicates(FirstSeen(xs, key))
    ensures forall n :: 0 <= n <= |xs| ==>
      |FirstSeen(xs[..n], key)| <= |FirstSeen(xs, key)| &&
      FirstSeen(xs, key)[..|FirstSeen(xs[..n], key)|] == FirstSeen(xs[..n], key)
  {
    if xs != [] {
      var m := |xs| - 1;
      var init := xs[..m];
      FirstSeenOrder(init, key);
      var ks := FirstSeen(xs, key);
      forall n | 0 <= n <= |xs|
        ensures |FirstSeen(xs[..n], key)| <= |ks| && ks[..|FirstSeen(xs[..n], key)|] == FirstSeen(xs[..n], key)
      {
        if n < |xs| {
          assert xs[..n] == init[..n];
        } else {
          assert xs[..n] == xs;
        }
      }
    }
  }

  /** The elements of `xs` whose key is `k`, in order. */
  function Group<T, K(==)>(xs: seq<T>, key: T -> K, k: K): seq<T>
  {
    if xs == [] then []
    else Group(xs[..|xs| - 1], key, k) + (if key(xs[|xs| - 1]) == k then [xs[|xs| - 1]] else [])
  }

  /** Grouping by one key keeps the same elements, in the same order, as filtering on that key. */
  lemma {:induction false} GroupIsFilter<T, K>(xs: seq<T>, key: T -> K, k: K, keep: T -> bool)
    requires forall x :: keep(x) == (key(x) == k)
    ensures Group(xs, key, k) == Filter(xs, keep)
  {
    if xs != [] {
      GroupIsFilter(xs[..|xs| - 1], key, k, keep);
    }
  }

  lemma {:induction false} GroupMembers<T, K>(xs: seq<T>, key: T -> K, k: K)
    ensures forall x :: x in Group(xs, key, k) <==> x in xs && key(x) == k
  {
    if xs != [] {
      GroupMembers(xs[..|xs| - 1], key, k);
      assert xs == xs[..|xs| - 1] + [xs[|xs| - 1]];
    }
  }

  lemma {:induction false} GroupIsSubsequence<T, K>(xs: seq<T>, key: T -> K, k: K)
    ensures IsSubsequence(Group(xs, key, k), xs)
  {
    if xs != [] {
      var init := xs[..|xs| - 1];
      GroupIsSubsequence(init, key, k);
      if key(xs[|xs| - 1]) == k {
        assert Group(xs, key, k) == Group(init, key, k) + [xs[|xs| - 1]];
        assert Group(xs, key, k)[..|Group(xs, key, k)| - 1] == Group(init, key, k);
      } else {
        assert Group(xs, key, k) == Group(init, key, k);
        SubsequenceDropLast(Group(init, key, k), xs);
      }
    }
  }

  /** The elements of `xs` whose key is one of `ks`, in order. */
  function WithKeyIn<T, K(==)>(xs: seq<T>, key: T -> K, ks: seq<K>): seq<T>
  {
    if xs == [] then []
    else WithKeyIn(xs[..|xs| - 1], key, ks) + (if key(xs[|xs| - 1]) in ks then [xs[|xs| - 1]] else [])
  }

  /** The groups of the keys `ks`, one after the other. */
  function ConcatGroups<T, K(==)>(xs: seq<T>, key: T -> K, ks: seq<K>): seq<T>
  {
    if ks == [] then [] else Group(xs, key, ks[0]) + ConcatGroups(xs, key, ks[1..])
  }

  /**
   * `groupBy(key).values` on an insertion-ordered map: the groups in the order
   * their keys were first seen, each group in the order of `xs`.
   */
  function Regroup<T, K(==)>(xs: seq<T>, key: T -> K): seq<T>
  {
    ConcatGroups(xs, key, FirstSeen(xs, key))
  }

  /** One more group, of a key not yet among `ks`. */
  lemma {:induction false} GroupThenKeys<T, K>(xs: seq<T>, key: T -> K, k: K, ks: seq<K>)
    requires k !in ks
    ensures multiset(Group(xs, key, k)) + multiset(WithKeyIn(xs, key, ks)) == multiset(WithKeyIn(xs, key, [k] + ks))
  {
    if xs != [] {
      GroupThenKeys(xs[..|xs| - 1], key, k, ks);
    }
  }

  lemma {:induction false} NoKeys<T, K>(xs: seq<T>, key: T -> K)
    ensures WithKeyIn(xs, key, []) == []
  {
    if xs != [] {
      NoKeys(xs[..|xs| - 1], key);
    }
  }

  lemma {:induction false} AllKeys<T, K>(xs: seq<T>, key: T -> K, ks: seq<K>)
    requires forall i :: 0 <= i < |xs| ==> key(xs[i]) in ks
    ensures WithKeyIn(xs, key, ks) == xs
  {
    if xs != [] {
      AllKeys(xs[..|xs| - 1], key, ks);
      assert xs == xs[..|xs| - 1] + [xs[|xs| - 1]];
    }
  }

  lemma {:induction false} ConcatGroupsMultiset<T, K>(xs: seq<T>, key: T -> K, ks: seq<K>)
    requires NoDuplicates(ks)
    ensures multiset(ConcatGroups(xs, key, ks)) == multiset(WithKeyIn(xs, key, ks))
  {
    if ks == [] {
      NoKeys(xs, key);
    } else {
      var rest := ks[1..];
      ConcatGroupsMultiset(xs, key, rest);
      assert ks[0] !in rest;
      GroupThenKeys(xs, key, ks[0], rest);
      assert [ks[0]] + rest == ks;
    }
  }

  /** Regrouping neither loses, duplicates nor invents an element. */
  lemma RegroupIsPermutation<T, K>(xs: seq<T>, key: T -> K)
    ensures multiset(Regroup(xs, key)) == multiset(xs)
  {
    var ks := FirstSeen(xs, key);
    FirstSeenOrder(xs, key);
    ConcatGroupsMultiset(xs, key, ks);
    forall i | 0 <= i < |xs| ensures key(xs[i]) in ks {
      FirstSeenMembers(xs, key, key(xs[i]));
    }
    AllKeys(xs, key, ks);
  }

  /** When every element has the same key, regrouping changes nothing. */
  lemma {:induction false} RegroupOneKey<T, K>(xs: seq<T>, key: T -> K, k: K)
    requires forall i :: 0 <= i < |xs| ==> key(xs[i]) == k
    ensures Regroup(xs, key) == xs
  {
    if xs != [] {
      OneKeySeen(xs, key, k);
      OneKeyGroup(xs, key, k);
      var ks := FirstSeen(xs, key);
      assert ks[1..] == [];
      calc {
        Regroup(xs, key);
        Group(xs, key, ks[0]) + ConcatGroups(xs, key, ks[1..]);
        Group(xs, key, k);
      }
    }
  }

  lemma {:induction false} OneKeyGroup<T, K>(xs: seq<T>, key: T -> K, k: K)
    requires forall i :: 0 <= i < |xs| ==> key(xs[i]) == k
    ensures Group(xs, key, k) == xs
  {
    if xs != [] {
      OneKeyGroup(xs[..|xs| - 1], key, k);
      assert xs == xs[..|xs| - 1] + [xs[|xs| - 1]];
    }
  }

  lemma {:induction false} OneKeySeen<T, K>(xs: seq<T>, key: T -> K, k: K)
    requires xs != [] && forall i :: 0 <= i < |xs| ==> key(xs[i]) == k
    ensures FirstSeen(xs, key) == [k]
  {
    if |xs| > 1 {
      OneKeySeen(xs[..|xs| - 1], key, k);
    }
  }
}
