/**
 * The pools `analyzeArguments` draws from: the positional arguments (with the
 * elements of `*[...]` literals spliced in), the keyword arguments, the `*x` and the
 * `**x` arguments; and the two ways a pool is consumed, `next` and
 * `removeKeywordArgument`.
 */
module ArgumentPools {
  import opened Options
  import opened CallModel
  import opened Sequences

  /** filterKeywordArguments: the `name=value` arguments, in call order. */
  method FilterKeywordArguments(arguments: seq<Expr>) returns (results: seq<Expr>)
    ensures results == Filter(arguments, IsKeywordArgument)
  {
    results := [];
    for i := 0 to |arguments|
      invariant results == Filter(arguments[..i], IsKeywordArgument)
    {
      assert arguments[..i + 1][..i] == arguments[..i];
      if IsKeywordArgument(arguments[i]) {
        results := results + [arguments[i]];
      }
    }
    assert arguments[..|arguments|] == arguments;
  }

  /** filterVariadicKeywordArguments: the `**x` arguments, in call order. */
  method FilterVariadicKeywordArguments(arguments: seq<Expr>) returns (results: seq<Expr>)
    ensures results == Filter(arguments, IsVariadicKeywordArgument)
  {
    results := [];
    for i := 0 to |arguments|
      invariant results == Filter(arguments[..i], IsVariadicKeywordArgument)
    {
      assert arguments[..i + 1][..i] == arguments[..i];
      if IsVariadicKeywordArgument(arguments[i]) {
        results := results + [arguments[i]];
      }
    }
    assert arguments[..|arguments|] == arguments;
  }

  /**
   * After this argument no plain positional argument is taken any more: a keyword
   * argument, a `**x`, or (before Python 3.5, which lifted the rule) a `*x`.
   */
  predicate StopsPositionals(e: Expr, olderThan35: bool)
  {
    e.kind.Keyword? || e.kind.DoubleStar? || (olderThan35 && e.kind.Star?)
  }

  predicate PositionalsStopped(prefix: seq<Expr>, olderThan35: bool)
  {
    exists k :: 0 <= k < |prefix| && StopsPositionals(prefix[k], olderThan35)
  }

  /** What filterPositionalAndVariadicArguments returns. */
  datatype PositionalArguments = PositionalArguments(
    positional: seq<Expr>,   // allPositionalArguments
    components: seq<Expr>,   // componentsOfVariadicPositionalArguments
    variadic: seq<Expr>)     // the `*x` arguments whose operand is not a literal

  /** The split of the arguments, argument by argument from the left. */
  function SplitPositional(args: seq<Expr>, olderThan35: bool): PositionalArguments
  {
    if args == [] then PositionalArguments([], [], [])
    else
      var init := args[..|args| - 1];
      var a := args[|args| - 1];
      var s := SplitPositional(init, olderThan35);
      match a.kind
      case Star(Some(elements)) =>
        PositionalArguments(s.positional + elements, s.components + elements, s.variadic)
      case Star(None) => s.(variadic := s.variadic + [a])
      case Keyword(_) => s
      case DoubleStar => s
      case _ => if PositionalsStopped(init, olderThan35) then s else s.(positional := s.positional + [a])
  }

  method FilterPositionalAndVariadicArguments(arguments: seq<Expr>, olderThan35: bool)
    returns (r: PositionalArguments)
    ensures r == SplitPositional(arguments, olderThan35)
  {
    var variadicArguments: seq<Expr> := [];
    var allPositionalArguments: seq<Expr> := [];
    var componentsOfVariadicPositionalArguments: seq<Expr> := [];
    var seenVariadicPositionalArgument := false;
    var seenVariadicKeywordArgument := false;
    var seenKeywordArgument := false;
    for i := 0 to |arguments|
      invariant seenVariadicPositionalArgument <==> exists k :: 0 <= k < i && arguments[k].kind.Star?
      invariant seenVariadicKeywordArgument <==> exists k :: 0 <= k < i && arguments[k].kind.DoubleStar?
      invariant seenKeywordArgument <==> exists k :: 0 <= k < i && arguments[k].kind.Keyword?
      invariant PositionalArguments(allPositionalArguments, componentsOfVariadicPositionalArguments, variadicArguments)
        == SplitPositional(arguments[..i], olderThan35)
    {
      var argument := arguments[i];
      assert arguments[..i + 1][..i] == arguments[..i];
      assert PositionalsStopped(arguments[..i], olderThan35) <==>
        seenKeywordArgument || seenVariadicKeywordArgument || (seenVariadicPositionalArgument && olderThan35) by {
        if PositionalsStopped(arguments[..i], olderThan35) {
          var k :| 0 <= k < i && StopsPositionals(arguments[..i][k], olderThan35);
          assert arguments[k] == arguments[..i][k];
        }
        if seenKeywordArgument || seenVariadicKeywordArgument || (seenVariadicPositionalArgument && olderThan35) {
          var k :| 0 <= k < i && StopsPositionals(arguments[k], olderThan35);
          assert arguments[k] == arguments[..i][k];
        }
      }
      match argument.kind {
        case Star(literal) =>
          seenVariadicPositionalArgument := true;
          if literal.Some? {
            allPositionalArguments := allPositionalArguments + literal.value;
            componentsOfVariadicPositionalArguments := componentsOfVariadicPositionalArguments + literal.value;
          } else {
            variadicArguments := variadicArguments + [argument];
          }
        case DoubleStar =>
          seenVariadicKeywordArgument := true;
        case Keyword(_) =>
          seenKeywordArgument := true;
        case _ =>
          if !(seenKeywordArgument || seenVariadicKeywordArgument || (seenVariadicPositionalArgument && olderThan35)) {
            allPositionalArguments := allPositionalArguments + [argument];
          }
      }
    }
    assert arguments[..|arguments|] == arguments;
    r := PositionalArguments(allPositionalArguments, componentsOfVariadicPositionalArguments, variadicArguments);
  }

  /** The literal elements `*x` contributes to the positional pool. */
  predicate SplicedFrom(x: Expr, a: Expr)
  {
    a.kind.Star? && a.kind.literal.Some? && x in a.kind.literal.value
  }

  /**
   * An expression is in the positional pool exactly when it is a positional
   * argument that comes before every keyword argument and `**x` (and, before
   * Python 3.5, every `*x`), or an element of a `*[...]` literal.
   */
  lemma {:induction false} PositionalPoolMembers(args: seq<Expr>, olderThan35: bool, x: Expr)
    ensures x in SplitPositional(args, olderThan35).positional <==>
      exists j :: 0 <= j < |args| &&
        ((args[j] == x && IsPositionalArgument(x) && !PositionalsStopped(args[..j], olderThan35)) ||
         SplicedFrom(x, args[j]))
  {
    if args != [] {
      var n := |args| - 1;
      var init := args[..n];
      PositionalPoolMembers(init, olderThan35, x);
      assert forall j :: 0 <= j < n ==> init[j] == args[j] && init[..j] == args[..j];
    }
  }

  /** A `*x` without a literal operand is in the variadic pool, and nothing else is. */
  lemma {:induction false} VariadicPoolMembers(args: seq<Expr>, olderThan35: bool, x: Expr)
    ensures x in SplitPositional(args, olderThan35).variadic <==> x in args && x.kind == Star(None)
  {
    if args != [] {
      var n := |args| - 1;
      VariadicPoolMembers(args[..n], olderThan35, x);
      assert args == args[..n] + [args[n]];
    }
  }

  /** Index of the first keyword argument called `name`, or |kws| when there is none. */
  function FirstNamed(kws: seq<Expr>, name: Option<string>): (i: nat)
    ensures i <= |kws|
    ensures forall j :: 0 <= j < i ==> !KeywordNamed(kws[j], name)
    ensures i < |kws| ==> KeywordNamed(kws[i], name)
  {
    if kws == [] then 0
    else if KeywordNamed(kws[0], name) then 0
    else 1 + FirstNamed(kws[1..], name)
  }

  /** removeKeywordArgument: the argument found, and the pool without it. */
  function RemoveKeyword(kws: seq<Expr>, name: Option<string>): (Option<Expr>, seq<Expr>)
  {
    var i := FirstNamed(kws, name);
    if i == |kws| then (None, kws) else (Some(kws[i]), kws[..i] + kws[i + 1..])
  }

  method RemoveKeywordArgument(arguments: seq<Expr>, name: Option<string>)
    returns (result: Option<Expr>, rest: seq<Expr>)
    ensures (result, rest) == RemoveKeyword(arguments, name)
  {
    result := None;
    var i := 0;
    while i < |arguments|
      invariant 0 <= i <= |arguments|
      invariant forall j :: 0 <= j < i ==> !KeywordNamed(arguments[j], name)
    {
      if KeywordNamed(arguments[i], name) {
        result := Some(arguments[i]);
        break;
      }
      i := i + 1;
    }
    // `arguments.remove(result)` drops the first element equal to the one found,
    // which is the one at index i: every earlier element has another keyword.
    rest := if result.Some? then arguments[..i] + arguments[i + 1..] else arguments;
    FirstNamedIsUnique(arguments, name, i);
  }

  lemma FirstNamedIsUnique(kws: seq<Expr>, name: Option<string>, i: nat)
    requires i <= |kws|
    requires forall j :: 0 <= j < i ==> !KeywordNamed(kws[j], name)
    requires i < |kws| ==> KeywordNamed(kws[i], name)
    ensures FirstNamed(kws, name) == i
  {
  }

  /** A keyword argument leaves the pool only by being the one returned. */
  lemma RemoveKeywordKeeps(kws: seq<Expr>, name: Option<string>, x: Expr)
    requires x in kws
    ensures x in RemoveKeyword(kws, name).1 || RemoveKeyword(kws, name).0 == Some(x)
  {
    var i := FirstNamed(kws, name);
    if i < |kws| && x != kws[i] {
      var j :| 0 <= j < |kws| && kws[j] == x;
      if j < i { assert x == (kws[..i] + kws[i + 1..])[j]; }
      else { assert x == (kws[..i] + kws[i + 1..])[j - 1]; }
    }
  }

  /** The pool after removal holds only arguments that were in it. */
  lemma RemoveKeywordShrinks(kws: seq<Expr>, name: Option<string>)
    ensures forall x :: x in RemoveKeyword(kws, name).1 ==> x in kws
    ensures RemoveKeyword(kws, name).0.Some? ==> |RemoveKeyword(kws, name).1| == |kws| - 1
  {
    var i := FirstNamed(kws, name);
    if i < |kws| {
      assert forall x :: x in kws[..i] + kws[i + 1..] ==> x in kws[..i] || x in kws[i + 1..];
    }
  }

  /** Removal takes out exactly the argument it returns, and nothing when it finds none. */
  lemma RemoveKeywordMultiset(kws: seq<Expr>, name: Option<string>)
    ensures var (found, rest) := RemoveKeyword(kws, name);
      if found.Some? then multiset(rest) + multiset{found.value} == multiset(kws) && found.value in kws
      else rest == kws
  {
    var i := FirstNamed(kws, name);
    if i < |kws| {
      assert kws == kws[..i] + [kws[i]] + kws[i + 1..];
    }
  }

  /** `next`: the head of the pool, removed. */
  function Next(pool: seq<Expr>): (r: (Option<Expr>, seq<Expr>))
    ensures r.0.None? <==> pool == []
    ensures r.0.Some? ==> [r.0.value] + r.1 == pool
    ensures r.0.None? ==> r.1 == []
  {
    if pool == [] then (None, []) else (Some(pool[0]), pool[1..])
  }
}
