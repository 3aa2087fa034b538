/**
 * Reading a finished argument mapping (argument -> parameter, in insertion
 * order): which arguments went to `*args` and to `**kwargs`, the mapping without
 * them, and the `*args` and `**kwargs` parameters themselves.
 */
module MappedContainers {
  import opened Options
  import opened LinkedMaps
  import opened CallModel
  import opened Sequences
  import opened ArgumentMapping
  import opened MappingProperties

  /** The keys whose parameter satisfies `keep`, in the order of the map. */
  function KeysWhere(m: LinkedMap<Expr, Param>, keep: Param -> bool): seq<Expr>
  {
    if m == [] then []
    else KeysWhere(m[..|m| - 1], keep) + (if keep(m[|m| - 1].1) then [m[|m| - 1].0] else [])
  }

  lemma {:induction false} KeysWhereMembers(m: LinkedMap<Expr, Param>, keep: Param -> bool)
    ensures forall x :: x in KeysWhere(m, keep) <==> exists i :: 0 <= i < |m| && m[i].0 == x && keep(m[i].1)
  {
    if m != [] {
      var init := m[..|m| - 1];
      KeysWhereMembers(init, keep);
      assert forall i :: 0 <= i < |init| ==> init[i] == m[i];
    }
  }

  lemma {:induction false} KeysWhereIsSubsequence(m: LinkedMap<Expr, Param>, keep: Param -> bool)
    ensures IsSubsequence(KeysWhere(m, keep), Keys(m))
  {
    if m != [] {
      var init := m[..|m| - 1];
      var last := m[|m| - 1];
      KeysWhereIsSubsequence(init, keep);
      KeysSnoc(m);
      if keep(last.1) {
        assert KeysWhere(m, keep) == KeysWhere(init, keep) + [last.0];
        SubsequenceSnoc(KeysWhere(init, keep), Keys(init), last.0);
      } else {
        assert KeysWhere(m, keep) == KeysWhere(init, keep);
        SubsequenceAppend(KeysWhere(init, keep), Keys(init), last.0);
      }
    }
  }

  lemma KeysSnoc(m: LinkedMap<Expr, Param>)
    requires m != []
    ensures Keys(m) == Keys(m[..|m| - 1]) + [m[|m| - 1].0]
  {
    var init := m[..|m| - 1];
    var ks := Keys(init) + [m[|m| - 1].0];
    forall i | 0 <= i < |m| ensures Keys(m)[i] == ks[i] {
      if i < |m| - 1 {
        assert ks[i] == Keys(init)[i] == init[i].0;
      }
    }
  }

  /** getArgumentsMappedToPositionalContainer: the arguments bound to `*args`. */
  function ArgumentsMappedToPositionalContainer(mapping: LinkedMap<Expr, Param>): (r: seq<Expr>)
    ensures forall x :: x in r <==> exists i :: 0 <= i < |mapping| && mapping[i].0 == x && IsPositionalContainer(mapping[i].1)
    ensures IsSubsequence(r, Keys(mapping))
  {
    KeysWhereMembers(mapping, IsPositionalContainer);
    KeysWhereIsSubsequence(mapping, IsPositionalContainer);
    KeysWhere(mapping, IsPositionalContainer)
  }

  /** getArgumentsMappedToKeywordContainer: the arguments bound to `**kwargs`. */
  function ArgumentsMappedToKeywordContainer(mapping: LinkedMap<Expr, Param>): (r: seq<Expr>)
    ensures forall x :: x in r <==> exists i :: 0 <= i < |mapping| && mapping[i].0 == x && IsKeywordContainer(mapping[i].1)
    ensures IsSubsequence(r, Keys(mapping))
  {
    KeysWhereMembers(mapping, IsKeywordContainer);
    KeysWhereIsSubsequence(mapping, IsKeywordContainer);
    KeysWhere(mapping, IsKeywordContainer)
  }

  /** Neither `*args` nor `**kwargs`. */
  predicate Regular(p: Param)
  {
    !IsPositionalContainer(p) && !IsKeywordContainer(p)
  }

  /** The regular entries put one by one into an empty map. */
  function RegularEntries(m: LinkedMap<Expr, Param>): LinkedMap<Expr, Param>
  {
    if m == [] then []
    else
      var r := RegularEntries(m[..|m| - 1]);
      var last := m[|m| - 1];
      if Regular(last.1) then Put(r, last.0, last.1) else r
  }

  /** getRegularMappedParameters. */
  method RegularMappedParameters(mapping: LinkedMap<Expr, Param>) returns (result: LinkedMap<Expr, Param>)
    ensures result == RegularEntries(mapping)
  {
    result := [];
    for i := 0 to |mapping|
      invariant result == RegularEntries(mapping[..i])
    {
      assert mapping[..i + 1][..i] == mapping[..i];
      var (argument, parameter) := mapping[i];
      if !IsPositionalContainer(parameter) && !IsKeywordContainer(parameter) {
        result := Put(result, argument, parameter);
      }
    }
    assert mapping[..|mapping|] == mapping;
  }

  /**
   * The regular mapping looks up, for every argument, its parameter when that is
   * neither `*args` nor `**kwargs`, and nothing otherwise.
   */
  lemma {:induction false} RegularEntriesLookup(m: LinkedMap<Expr, Param>, k: Expr)
    requires NoDuplicates(Keys(m))
    ensures Get(RegularEntries(m), k) == (if Get(m, k).Some? && Regular(Get(m, k).value) then Get(m, k) else None)
  {
    if m != [] {
      var init := m[..|m| - 1];
      var last := m[|m| - 1];
      var prev := RegularEntries(init);
      assert Keys(init) == Keys(m)[..|m| - 1];
      RegularEntriesLookup(init, k);
      GetLast(m, k);
      if k == last.0 {
        assert Keys(m)[|m| - 1] == last.0;
        GetSomeIffKey(init, k);
        assert Get(m, k) == Some(last.1);
      } else {
        assert Get(m, k) == Get(init, k);
      }
    }
  }

  /** The regular mapping holds the regular arguments in the order of the mapping. */
  lemma {:induction false} RegularEntriesOrder(m: LinkedMap<Expr, Param>)
    requires NoDuplicates(Keys(m))
    ensures Keys(RegularEntries(m)) == KeysWhere(m, Regular)
  {
    if m != [] {
      var init := m[..|m| - 1];
      var last := m[|m| - 1];
      assert Keys(init) == Keys(m)[..|m| - 1];
      RegularEntriesOrder(init);
      assert last.0 !in Keys(init) by {
        assert Keys(m)[|m| - 1] == last.0;
      }
      KeysWhereWithin(init, Regular, last.0);
    }
  }

  /** A key the map does not have is not among any selection of its keys. */
  lemma {:induction false} KeysWhereWithin(m: LinkedMap<Expr, Param>, keep: Param -> bool, k: Expr)
    requires k !in Keys(m)
    ensures k !in KeysWhere(m, keep)
  {
    if m != [] {
      var init := m[..|m| - 1];
      assert Keys(init) == Keys(m)[..|m| - 1];
      KeysWhereWithin(init, keep, k);
      assert Keys(m)[|m| - 1] == m[|m| - 1].0;
    }
  }

  /**
   * Every argument of a mapping lands in exactly one of the three: bound to
   * `*args`, bound to `**kwargs`, or in the regular mapping.
   */
  lemma MappingPartition(m: LinkedMap<Expr, Param>, x: Expr)
    requires NoDuplicates(Keys(m))
    requires x in Keys(m)
    ensures var inPositional := x in ArgumentsMappedToPositionalContainer(m);
            var inKeyword := x in ArgumentsMappedToKeywordContainer(m);
            var inRegular := Get(RegularEntries(m), x).Some?;
            (inPositional || inKeyword || inRegular) &&
            !(inPositional && inKeyword) && !(inPositional && inRegular) && !(inKeyword && inRegular)
  {
    RegularEntriesLookup(m, x);
    var i :| 0 <= i < |m| && Keys(m)[i] == x;
    GetAt(m, i);
    forall j | 0 <= j < |m| && m[j].0 == x ensures j == i {
      assert Keys(m)[j] == Keys(m)[i];
    }
  }

  /** In a map without repeated keys, each entry is what its key looks up. */
  lemma {:induction false} GetAt(m: LinkedMap<Expr, Param>, i: nat)
    requires NoDuplicates(Keys(m)) && i < |m|
    ensures Get(m, m[i].0) == Some(m[i].1)
  {
    if i > 0 {
      assert Keys(m[1..]) == Keys(m)[1..];
      GetAt(m[1..], i - 1);
      assert Keys(m)[0] != Keys(m)[i];
    }
  }

  /** `ContainerUtil.find(mapping.values, keep)`: the first parameter that satisfies `keep`. */
  function FindValue(m: LinkedMap<Expr, Param>, keep: Param -> bool): (r: Option<Param>)
    ensures r.None? <==> forall i :: 0 <= i < |m| ==> !keep(m[i].1)
    ensures r.Some? ==> exists i :: 0 <= i < |m| && m[i].1 == r.value && keep(r.value) &&
                          forall j :: 0 <= j < i ==> !keep(m[j].1)
  {
    if m == [] then None
    else if keep(m[0].1) then Some(m[0].1)
    else
      var r := FindValue(m[1..], keep);
      assert forall i :: 0 < i < |m| ==> m[1..][i - 1] == m[i];
      if r.Some? then
        ghost var i :| 0 <= i < |m[1..]| && m[1..][i].1 == r.value && keep(r.value) &&
                       forall j :: 0 <= j < i ==> !keep(m[1..][j].1);
        assert m[i + 1].1 == r.value;
        r
      else
        r
  }

  /** getMappedPositionalContainer: the `*args` parameter the mapping uses, if any. */
  function MappedPositionalContainer(mapping: LinkedMap<Expr, Param>): (r: Option<Param>)
    ensures r.None? <==> forall i :: 0 <= i < |mapping| ==> !IsPositionalContainer(mapping[i].1)
    ensures r.Some? ==> IsPositionalContainer(r.value) && r.value in Values(mapping)
  {
    FindValue(mapping, IsPositionalContainer)
  }

  /** getMappedKeywordContainer: the `**kwargs` parameter the mapping uses, if any. */
  function MappedKeywordContainer(mapping: LinkedMap<Expr, Param>): (r: Option<Param>)
    ensures r.None? <==> forall i :: 0 <= i < |mapping| ==> !IsKeywordContainer(mapping[i].1)
    ensures r.Some? ==> IsKeywordContainer(r.value) && r.value in Values(mapping)
  {
    FindValue(mapping, IsKeywordContainer)
  }

  /**
   * On the mapping an analysis produces, each bound argument is in exactly one of
   * the `*args` list, the `**kwargs` list and the regular mapping, which keeps
   * that argument's parameter exactly when it is neither `*args` nor `**kwargs`.
   */
  lemma AnalyzedMappingPartition(arguments: seq<Expr>, parameters: seq<Param>, olderThan35: bool,
                                 m: LinkedMap<Expr, Param>, x: Expr)
    requires m == Analyze(arguments, parameters, olderThan35).mappedParameters
    requires x in Keys(m)
    ensures var inPositional := x in ArgumentsMappedToPositionalContainer(m);
      var inKeyword := x in ArgumentsMappedToKeywordContainer(m);
      var inRegular := Get(RegularEntries(m), x).Some?;
      (inPositional || inKeyword || inRegular) &&
      !(inPositional && inKeyword) && !(inPositional && inRegular) && !(inKeyword && inRegular) &&
      (inRegular <==> Get(m, x).Some? && Regular(Get(m, x).value)) &&
      Keys(RegularEntries(m)) == KeysWhere(m, Regular)
  {
    AnalyzedKeysDistinct(arguments, parameters, olderThan35);
    MappingPartition(m, x);
    RegularEntriesLookup(m, x);
    RegularEntriesOrder(m);
  }
}
