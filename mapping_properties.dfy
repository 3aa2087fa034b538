/**
 * What analyzeArguments promises, proved about its specification `Step`, `Run`,
 * `Finish` and `Analyze`: how each kind of parameter draws on the pools, that the
 * pools only shrink, that ordinary parameters take the positional arguments in
 * order, that a parameter with a default is never reported unmapped, and that no
 * positional or keyword argument is lost.
 */
module MappingProperties {
  import opened Options
  import opened LinkedMaps
  import opened CallModel
  import opened Sequences
  import opened ArgumentPools
  import opened TupleParameters
  import opened ArgumentMapping

  /** A named parameter that is not `*args`, `**kwargs` nor typed with a ParamSpec. */
  predicate IsPlainNamed(p: Param)
  {
    p.kind.Named? && p.kind.role == Normal && !p.kind.isParamSpec
  }

  // ---- one parameter ----

  /**
   * An ordinary parameter before any bare `*` takes the head of the positional pool
   * whenever there is one; it falls back to the first keyword argument with its
   * name only when that pool is empty, and never while a `/` is still ahead.
   */
  lemma OrdinaryParameterBinding(c: Call, s: State, p: Param)
    requires IsPlainNamed(p) && !s.seenSingleStar
    ensures var t := Step(c, s, p);
      (s.positional != [] ==>
        Get(t.mapped, s.positional[0]) == Some(p) && t.positional == s.positional[1..] &&
        t.keywords == s.keywords &&
        forall k :: k != s.positional[0] ==> Get(t.mapped, k) == Get(s.mapped, k)) &&
      (s.positionalOnlyMode ==> t.keywords == s.keywords) &&
      (t.keywords != s.keywords ==> s.positional == [] && !s.positionalOnlyMode) &&
      (s.positional == [] && !s.positionalOnlyMode ==>
        var i := FirstNamed(s.keywords, p.kind.name);
        t.positional == [] &&
        (i < |s.keywords| ==> Get(t.mapped, s.keywords[i]) == Some(p) &&
                              (forall k :: k != s.keywords[i] ==> Get(t.mapped, k) == Get(s.mapped, k)) &&
                              multiset(t.keywords) + multiset{s.keywords[i]} == multiset(s.keywords)) &&
        (i == |s.keywords| ==> t.mapped == s.mapped && t.keywords == s.keywords))
  {
    if s.positional != [] {
      TakesHead(c, s, p);
    } else if !s.positionalOnlyMode {
      assert Step(c, s, p) == BindByKeyword(s, p);
    }
    RemoveKeywordMultiset(s.keywords, p.kind.name);
  }

  /**
   * An ordinary parameter with no positional argument left, no `/` ahead and no
   * keyword argument of its name: reported unmapped when there is neither a `*x`
   * nor a `**x` argument and it has no default; otherwise recorded as satisfied
   * through whichever of `*x` and `**x` are present, and the variadic flag is set.
   */
  lemma OrdinaryKeywordFallback(c: Call, s: State, p: Param)
    requires IsPlainNamed(p) && !s.seenSingleStar && !s.positionalOnlyMode && s.positional == []
    requires FirstNamed(s.keywords, p.kind.name) == |s.keywords|
    ensures var t := Step(c, s, p);
      var unmapped := s.variadicPositional == [] && s.variadicKeyword == [] && !HasDefault(p);
      t.mapped == s.mapped && t.keywords == s.keywords && t.positional == [] &&
      t.unmappedParams == (if unmapped then s.unmappedParams + [p] else s.unmappedParams) &&
      t.viaVarPositional == (if s.variadicPositional != [] then s.viaVarPositional + [p] else s.viaVarPositional) &&
      t.viaVarKeyword == (if s.variadicKeyword != [] then s.viaVarKeyword + [p] else s.viaVarKeyword) &&
      t.mappedVariadic == (s.mappedVariadic || !unmapped)
  {
    assert Step(c, s, p) == BindByKeyword(s, p);
  }

  /** An ordinary parameter, with positional arguments left, takes the first of them and nothing else. */
  lemma TakesHead(c: Call, s: State, p: Param)
    requires IsPlainNamed(p) && !s.seenSingleStar && s.positional != []
    ensures var t := Step(c, s, p);
      Get(t.mapped, s.positional[0]) == Some(p) && t.positional == s.positional[1..] &&
      t.keywords == s.keywords && !t.seenSingleStar &&
      forall k :: k != s.positional[0] ==> Get(t.mapped, k) == Get(s.mapped, k)
  {
    if s.positionalOnlyMode {
      assert Step(c, s, p) == BindPositionalOnly(s, p);
    } else {
      assert Step(c, s, p) == BindNextPositional(c, s, p);
    }
  }

  /**
   * A parameter after a bare `*` takes no positional argument: it binds to the first
   * keyword argument with its name, and to nothing else.
   */
  lemma KeywordOnlyBinding(c: Call, s: State, p: Param)
    requires p.kind.Named? && p.kind.role == Normal && s.seenSingleStar
    ensures var t := Step(c, s, p);
      var i := FirstNamed(s.keywords, p.kind.name);
      t.positional == s.positional &&
      (i < |s.keywords| ==>
        Get(t.mapped, s.keywords[i]) == Some(p) &&
        (forall k :: k != s.keywords[i] ==> Get(t.mapped, k) == Get(s.mapped, k)) &&
        multiset(t.keywords) + multiset{s.keywords[i]} == multiset(s.keywords)) &&
      (i == |s.keywords| ==> t.mapped == s.mapped && t.keywords == s.keywords)
  {
    assert Step(c, s, p) == BindKeywordOnly(s, p);
    KeywordOnlyFound(s, p);
  }

  lemma KeywordOnlyFound(s: State, p: Param)
    requires p.kind.Named?
    ensures var t := BindKeywordOnly(s, p);
      var i := FirstNamed(s.keywords, p.kind.name);
      t.positional == s.positional &&
      (i < |s.keywords| ==>
        Get(t.mapped, s.keywords[i]) == Some(p) &&
        (forall k :: k != s.keywords[i] ==> Get(t.mapped, k) == Get(s.mapped, k)) &&
        multiset(t.keywords) + multiset{s.keywords[i]} == multiset(s.keywords)) &&
      (i == |s.keywords| ==> t.mapped == s.mapped && t.keywords == s.keywords)
  {
    RemoveKeywordMultiset(s.keywords, p.kind.name);
  }

  /**
   * A parameter after a bare `*` with no keyword argument of its name: reported
   * unmapped when there is no `**x` argument and it has no default; recorded as
   * satisfied through the `**x` arguments when there is one.
   */
  lemma KeywordOnlyFallback(c: Call, s: State, p: Param)
    requires p.kind.Named? && p.kind.role == Normal && s.seenSingleStar
    requires FirstNamed(s.keywords, p.kind.name) == |s.keywords|
    ensures var t := Step(c, s, p);
      t.mapped == s.mapped && t.keywords == s.keywords && t.positional == s.positional &&
      t.unmappedParams == (if s.variadicKeyword == [] && !HasDefault(p) then s.unmappedParams + [p]
                           else s.unmappedParams) &&
      t.viaVarKeyword == (if s.variadicKeyword != [] then s.viaVarKeyword + [p] else s.viaVarKeyword) &&
      t.mappedVariadic == (s.mappedVariadic || s.variadicKeyword != [])
  {
    assert Step(c, s, p) == BindKeywordOnly(s, p);
  }

  /**
   * `*args` takes every positional argument left and the `*x` argument when it is
   * the only one; afterwards both pools are empty and nothing else is bound.
   */
  lemma VarPositionalTakesRest(c: Call, s: State, p: Param)
    requires IsPositionalContainer(p)
    ensures var t := Step(c, s, p);
      t.positional == [] && t.variadicPositional == [] &&
      t.keywords == s.keywords && t.variadicKeyword == s.variadicKeyword &&
      (forall x :: x in s.positional ==> Get(t.mapped, x) == Some(p)) &&
      (|s.variadicPositional| == 1 ==> Get(t.mapped, s.variadicPositional[0]) == Some(p)) &&
      (forall x :: x !in s.positional && (|s.variadicPositional| == 1 ==> x != s.variadicPositional[0]) ==>
        Get(t.mapped, x) == Get(s.mapped, x))
  {
  }

  /** `**kwargs` takes every keyword argument left and every `**x` argument. */
  lemma VarKeywordTakesAll(c: Call, s: State, p: Param)
    requires IsKeywordContainer(p)
    ensures var t := Step(c, s, p);
      t.keywords == [] && t.variadicKeyword == [] &&
      t.positional == s.positional && t.variadicPositional == s.variadicPositional &&
      (forall x :: x in s.keywords || x in s.variadicKeyword ==> Get(t.mapped, x) == Some(p)) &&
      (forall x :: x !in s.keywords && x !in s.variadicKeyword ==> Get(t.mapped, x) == Get(s.mapped, x))
  {
  }

  /** A parameter typed with a ParamSpec or Concatenate takes every argument and empties every pool. */
  lemma ParamSpecTakesEverything(c: Call, s: State, p: Param)
    requires p.kind.Named? && p.kind.role == Normal && p.kind.isParamSpec && !s.seenSingleStar
    ensures var t := Step(c, s, p);
      t.positional == [] && t.keywords == [] && t.variadicPositional == [] && t.variadicKeyword == [] &&
      forall x :: x in c.arguments ==> Get(t.mapped, x) == Some(p)
  {
  }

  // ---- the pools over the whole walk ----

  /** `ys` is what is left of `xs` after some elements were taken from its front. */
  predicate IsSuffix(ys: seq<Expr>, xs: seq<Expr>)
  {
    |ys| <= |xs| && ys == xs[|xs| - |ys|..]
  }

  /**
   * From `s` to `t` the pools only lose arguments: the positional one from its
   * front, the keyword one anywhere, the `*x` and `**x` ones all at once; the
   * arguments already reported unmapped stay where they are.
   */
  predicate Shrinks(s: State, t: State)
  {
    IsSuffix(t.positional, s.positional) &&
    multiset(t.keywords) <= multiset(s.keywords) &&
    (t.variadicPositional == s.variadicPositional || t.variadicPositional == []) &&
    (t.variadicKeyword == s.variadicKeyword || t.variadicKeyword == []) &&
    |s.unmappedArgs| <= |t.unmappedArgs| && t.unmappedArgs[..|s.unmappedArgs|] == s.unmappedArgs
  }

  lemma StepShrinksPools(c: Call, s: State, p: Param)
    ensures Shrinks(s, Step(c, s, p))
  {
    if p.kind.Named? && p.kind.role == Normal && (s.seenSingleStar || !p.kind.isParamSpec) {
      if s.seenSingleStar || (!s.positionalOnlyMode && s.positional == []) {
        ShrinksByKeyword(c, s, p);
      } else {
        ShrinksByHead(c, s, p);
      }
    } else if p.kind.Tuple? {
      TupleShrinks(s, p);
    } else {
      ShrinksByContainer(c, s, p);
    }
  }

  /** `*args`, `**kwargs`, a ParamSpec parameter and the `/` and `*` markers. */
  lemma ShrinksByContainer(c: Call, s: State, p: Param)
    requires !p.kind.Tuple?
    requires p.kind.Named? ==> p.kind.role != Normal || (p.kind.isParamSpec && !s.seenSingleStar)
    ensures Shrinks(s, Step(c, s, p))
  {
    ClearingShrinks(s, Step(c, s, p));
  }

  /** Keeping or emptying each pool. */
  lemma ClearingShrinks(s: State, t: State)
    requires t.positional == s.positional || t.positional == []
    requires t.keywords == s.keywords || t.keywords == []
    requires t.variadicPositional == s.variadicPositional || t.variadicPositional == []
    requires t.variadicKeyword == s.variadicKeyword || t.variadicKeyword == []
    requires t.unmappedArgs == s.unmappedArgs
    ensures Shrinks(s, t)
  {
  }

  /** The branches that may take a keyword argument out of its pool. */
  lemma ShrinksByKeyword(c: Call, s: State, p: Param)
    requires p.kind.Named? && p.kind.role == Normal
    requires s.seenSingleStar || (!p.kind.isParamSpec && !s.positionalOnlyMode && s.positional == [])
    ensures Shrinks(s, Step(c, s, p))
  {
    if s.seenSingleStar {
      KeywordRemovalShrinks(s, BindKeywordOnly(s, p), p.kind.name);
    } else {
      KeywordRemovalShrinks(s, BindByKeyword(s, p), p.kind.name);
    }
  }

  /** The branches that may take the head of the positional pool. */
  lemma ShrinksByHead(c: Call, s: State, p: Param)
    requires IsPlainNamed(p) && !s.seenSingleStar && (s.positionalOnlyMode || s.positional != [])
    ensures Shrinks(s, Step(c, s, p))
  {
    if s.positionalOnlyMode {
      HeadRemovalShrinks(s, BindPositionalOnly(s, p));
    } else {
      HeadRemovalShrinks(s, BindNextPositional(c, s, p));
    }
  }

  /** Taking at most the first keyword argument with a name out of the keyword pool. */
  lemma KeywordRemovalShrinks(s: State, t: State, name: Option<string>)
    requires t.keywords == s.keywords || t.keywords == RemoveKeyword(s.keywords, name).1
    requires t.positional == s.positional && t.unmappedArgs == s.unmappedArgs
    requires t.variadicPositional == s.variadicPositional && t.variadicKeyword == s.variadicKeyword
    ensures Shrinks(s, t)
  {
    RemoveKeywordMultiset(s.keywords, name);
  }

  /** Taking at most the head of the positional pool. */
  lemma HeadRemovalShrinks(s: State, t: State)
    requires t.positional == s.positional || (s.positional != [] && t.positional == s.positional[1..])
    requires t.keywords == s.keywords && t.unmappedArgs == s.unmappedArgs
    requires t.variadicPositional == s.variadicPositional && t.variadicKeyword == s.variadicKeyword
    ensures Shrinks(s, t)
  {
  }

  lemma TupleShrinks(s: State, p: Param)
    requires p.kind.Tuple?
    ensures Shrinks(s, BindTuple(s, p))
  {
    var t := BindTuple(s, p);
    if s.positional != [] {
      var nested := MapTupleParameter(s.positional[0], p);
      assert t.unmappedArgs == s.unmappedArgs + nested.unmappedArgs;
      assert t.unmappedArgs[..|s.unmappedArgs|] == s.unmappedArgs;
    }
  }

  lemma ShrinksTransitive(r: State, s: State, t: State)
    requires Shrinks(r, s) && Shrinks(s, t)
    ensures Shrinks(r, t)
  {
    assert t.unmappedArgs[..|r.unmappedArgs|] == s.unmappedArgs[..|r.unmappedArgs|];
  }

  /** The loop never puts an argument back into a pool. */
  lemma PoolsOnlyShrink(c: Call, s: State, ps: seq<Param>)
    ensures Shrinks(s, Run(c, s, ps))
  {
    var t := ShrinkAlong(c, s, ps);
  }

  /** PoolsOnlyShrink, with the state after the walk as an out-parameter. */
  lemma {:induction false} ShrinkAlong(c: Call, s: State, ps: seq<Param>) returns (t: State)
    ensures t == Run(c, s, ps) && Shrinks(s, t)
  {
    if ps == [] {
      t := s;
    } else {
      var prev := ShrinkAlong(c, s, ps[..|ps| - 1]);
      t := Step(c, prev, ps[|ps| - 1]);
      StepShrinksPools(c, prev, ps[|ps| - 1]);
      ShrinksTransitive(s, prev, t);
    }
  }

  predicate AllPlainNamed(ps: seq<Param>)
  {
    forall i :: 0 <= i < |ps| ==> IsPlainNamed(ps[i])
  }

  /**
   * Ordinary parameters before any bare `*` take the positional arguments in call
   * order: the i-th parameter gets the i-th positional argument, and the keyword
   * arguments are left alone while positional ones remain.
   */
  lemma PositionalsBindInOrder(c: Call, s: State, ps: seq<Param>)
    requires AllPlainNamed(ps) && !s.seenSingleStar
    requires |ps| <= |s.positional| && NoDuplicates(s.positional)
    ensures var t := Run(c, s, ps);
      !t.seenSingleStar && t.positional == s.positional[|ps|..] && t.keywords == s.keywords &&
      forall i :: 0 <= i < |ps| ==> Get(t.mapped, s.positional[i]) == Some(ps[i])
  {
    var t := BindInOrder(c, s, ps);
  }

  /** PositionalsBindInOrder, with the state after the walk as an out-parameter. */
  lemma {:induction false} BindInOrder(c: Call, s: State, ps: seq<Param>) returns (t: State)
    requires AllPlainNamed(ps) && !s.seenSingleStar
    requires |ps| <= |s.positional| && NoDuplicates(s.positional)
    ensures t == Run(c, s, ps)
    ensures !t.seenSingleStar && t.positional == s.positional[|ps|..] && t.keywords == s.keywords
    ensures forall i :: 0 <= i < |ps| ==> Get(t.mapped, s.positional[i]) == Some(ps[i])
  {
    if ps == [] {
      t := s;
    } else {
      var n := |ps| - 1;
      var init := ps[..n];
      assert AllPlainNamed(init) by {
        forall i | 0 <= i < n ensures IsPlainNamed(init[i]) {
          assert init[i] == ps[i];
        }
      }
      var prev := BindInOrder(c, s, init);
      assert IsPlainNamed(ps[n]);
      TakesHead(c, prev, ps[n]);
      t := Step(c, prev, ps[n]);
      assert prev.positional[0] == s.positional[n];
      assert prev.positional[1..] == s.positional[|ps|..];
      BindingKept(s.positional, ps, prev.mapped, t.mapped);
    }
  }

  /** One more argument bound, the earlier bindings untouched. */
  lemma BindingKept(args: seq<Expr>, ps: seq<Param>, before: LinkedMap<Expr, Param>, after: LinkedMap<Expr, Param>)
    requires 0 < |ps| <= |args| && NoDuplicates(args)
    requires forall i :: 0 <= i < |ps| - 1 ==> Get(before, args[i]) == Some(ps[i])
    requires Get(after, args[|ps| - 1]) == Some(ps[|ps| - 1])
    requires forall k :: k != args[|ps| - 1] ==> Get(after, k) == Get(before, k)
    ensures forall i :: 0 <= i < |ps| ==> Get(after, args[i]) == Some(ps[i])
  {
    forall i | 0 <= i < |ps| - 1 ensures Get(after, args[i]) == Some(ps[i]) {
      assert args[i] != args[|ps| - 1];
    }
  }

  // ---- unmapped parameters ----

  /** Only the parameter itself, when it has no default, or one of its tuple components. */
  lemma StepUnmappedParams(c: Call, s: State, p: Param)
    ensures var t := Step(c, s, p);
      |s.unmappedParams| <= |t.unmappedParams| &&
      t.unmappedParams[..|s.unmappedParams|] == s.unmappedParams &&
      forall q :: q in t.unmappedParams[|s.unmappedParams|..] ==>
        (q == p && !HasDefault(p)) || IsNestedComponent(q, p)
  {
    if p.kind.Tuple? && s.positional != [] {
      UnmappedAreComponents(s.positional[0], p);
    }
  }

  /** A parameter of `ps` without a default, or a component of one of its tuple parameters. */
  predicate Reportable(q: Param, ps: seq<Param>)
  {
    (q in ps && !HasDefault(q)) || exists tp :: tp in ps && IsNestedComponent(q, tp)
  }

  lemma {:induction false} RunUnmappedParams(c: Call, s: State, ps: seq<Param>)
    ensures var t := Run(c, s, ps);
      |s.unmappedParams| <= |t.unmappedParams| &&
      t.unmappedParams[..|s.unmappedParams|] == s.unmappedParams &&
      forall q :: q in t.unmappedParams[|s.unmappedParams|..] ==> Reportable(q, ps)
  {
    if ps != [] {
      var n := |ps| - 1;
      var init := ps[..n];
      RunUnmappedParams(c, s, init);
      var prev := Run(c, s, init);
      StepUnmappedParams(c, prev, ps[n]);
      var t := Run(c, s, ps);
      var k := |s.unmappedParams|;
      var m := |prev.unmappedParams|;
      assert t.unmappedParams[k..] == prev.unmappedParams[k..] + t.unmappedParams[m..];
      forall q | q in t.unmappedParams[k..] ensures Reportable(q, ps) {
        if q in prev.unmappedParams[k..] {
          assert Reportable(q, init);
          if q !in init || HasDefault(q) {
            var tp :| tp in init && IsNestedComponent(q, tp);
            assert tp in ps;
          }
        } else {
          assert q in t.unmappedParams[m..];
          if q != ps[n] || HasDefault(ps[n]) {
            assert IsNestedComponent(q, ps[n]);
          }
        }
      }
    }
  }

  /**
   * A parameter with a default value is never reported unmapped: every unmapped
   * parameter is a parameter without a default or a component of a tuple parameter
   * that received too short a display.
   */
  lemma UnmappedParametersHaveNoDefault(arguments: seq<Expr>, parameters: seq<Param>, olderThan35: bool)
    ensures forall q :: q in Analyze(arguments, parameters, olderThan35).unmappedParameters ==>
      Reportable(q, parameters)
  {
    var s := Start(arguments, parameters, olderThan35);
    RunUnmappedParams(CallOf(arguments, olderThan35), s, parameters);
    assert Run(CallOf(arguments, olderThan35), s, parameters).unmappedParams[0..]
      == Run(CallOf(arguments, olderThan35), s, parameters).unmappedParams;
  }

  // ---- no argument is lost ----

  /** `x` is bound, tuple-bound, reported unmapped, or still waiting in a pool. */
  predicate Accounted(s: State, x: Expr)
  {
    Get(s.mapped, x).Some? || Get(s.tupleMapped, x).Some? || x in s.unmappedArgs ||
    x in s.positional || x in s.keywords
  }

  lemma StepKeepsAccounted(c: Call, s: State, p: Param, x: Expr)
    requires x in c.arguments && Accounted(s, x)
    ensures Accounted(Step(c, s, p), x)
  {
    if p.kind.Named? && p.kind.role == VarPositional {
      VarPositionalKeeps(s, p, x);
    } else if p.kind.Named? && p.kind.role == VarKeyword {
      VarKeywordKeeps(s, p, x);
    } else if p.kind.Named? && (s.seenSingleStar || !p.kind.isParamSpec) {
      if s.seenSingleStar || (!s.positionalOnlyMode && s.positional == []) {
        KeepsByKeyword(c, s, p, x);
      } else {
        KeepsByHead(c, s, p, x);
      }
    } else if p.kind.Tuple? {
      TupleKeeps(s, p, x);
    }
  }

  /** The branches that may take a keyword argument out of its pool. */
  lemma KeepsByKeyword(c: Call, s: State, p: Param, x: Expr)
    requires p.kind.Named? && p.kind.role == Normal && Accounted(s, x)
    requires s.seenSingleStar || (!p.kind.isParamSpec && !s.positionalOnlyMode && s.positional == [])
    ensures Accounted(Step(c, s, p), x)
  {
    if s.seenSingleStar {
      KeywordOnlyKeeps(s, p, x);
    } else {
      ByKeywordKeeps(s, p, x);
    }
  }

  /** The branches that may take the head of the positional pool. */
  lemma KeepsByHead(c: Call, s: State, p: Param, x: Expr)
    requires IsPlainNamed(p) && !s.seenSingleStar && (s.positionalOnlyMode || s.positional != [])
    requires Accounted(s, x)
    ensures Accounted(Step(c, s, p), x)
  {
    if s.positionalOnlyMode {
      HeadTakenKeeps(s, BindPositionalOnly(s, p), x);
    } else {
      HeadTakenKeeps(s, BindNextPositional(c, s, p), x);
    }
  }

  lemma VarPositionalKeeps(s: State, p: Param, x: Expr)
    requires Accounted(s, x)
    ensures Accounted(BindVarPositional(s, p), x)
  {
  }

  lemma VarKeywordKeeps(s: State, p: Param, x: Expr)
    requires Accounted(s, x)
    ensures Accounted(BindVarKeyword(s, p), x)
  {
  }

  lemma KeywordOnlyKeeps(s: State, p: Param, x: Expr)
    requires p.kind.Named? && Accounted(s, x)
    ensures Accounted(BindKeywordOnly(s, p), x)
  {
    var (found, rest) := RemoveKeyword(s.keywords, p.kind.name);
    if x in s.keywords {
      RemoveKeywordKeeps(s.keywords, p.kind.name, x);
    }
    if found.Some? {
      assert BindKeywordOnly(s, p) == s.(mapped := Put(s.mapped, found.value, p), keywords := rest);
    } else {
      assert rest == s.keywords;
      assert BindKeywordOnly(s, p).mapped == s.mapped && BindKeywordOnly(s, p).keywords == s.keywords;
    }
  }

  lemma ByKeywordKeeps(s: State, p: Param, x: Expr)
    requires p.kind.Named? && Accounted(s, x)
    ensures Accounted(BindByKeyword(s, p), x)
  {
    var (found, rest) := RemoveKeyword(s.keywords, p.kind.name);
    if x in s.keywords {
      RemoveKeywordKeeps(s.keywords, p.kind.name, x);
    }
    if found.Some? {
      assert BindByKeyword(s, p) == s.(mapped := Put(s.mapped, found.value, p), keywords := rest);
    } else {
      assert rest == s.keywords;
      assert BindByKeyword(s, p).mapped == s.mapped && BindByKeyword(s, p).keywords == s.keywords;
    }
  }

  /** The head of the positional pool, if taken, is bound; nothing else changes but the bindings. */
  lemma HeadTakenKeeps(s: State, t: State, x: Expr)
    requires Accounted(s, x)
    requires t.positional == s.positional ||
             (s.positional != [] && t.positional == s.positional[1..] && Get(t.mapped, s.positional[0]).Some?)
    requires forall k :: Get(s.mapped, k).Some? ==> Get(t.mapped, k).Some?
    requires t.keywords == s.keywords && t.tupleMapped == s.tupleMapped && t.unmappedArgs == s.unmappedArgs
    ensures Accounted(t, x)
  {
    if x in s.positional {
      assert x == s.positional[0] || x in s.positional[1..];
    }
  }

  lemma TupleKeeps(s: State, p: Param, x: Expr)
    requires p.kind.Tuple? && Accounted(s, x)
    ensures Accounted(BindTuple(s, p), x)
  {
    if x in s.positional {
      assert x == s.positional[0] || x in s.positional[1..];
    }
  }

  lemma {:induction false} RunKeepsAccounted(c: Call, s: State, ps: seq<Param>, x: Expr)
    requires x in c.arguments && Accounted(s, x)
    ensures Accounted(Run(c, s, ps), x)
  {
    if ps != [] {
      RunKeepsAccounted(c, s, ps[..|ps| - 1], x);
      StepKeepsAccounted(c, Run(c, s, ps[..|ps| - 1]), ps[|ps| - 1], x);
    }
  }

  /**
   * Every keyword argument, and every positional argument that comes before the
   * first keyword argument or `**x` (or, before Python 3.5, `*x`), ends up bound to
   * a parameter, bound to a tuple parameter, or among the unmapped arguments.
   */
  lemma NoArgumentLost(arguments: seq<Expr>, parameters: seq<Param>, olderThan35: bool, j: nat)
    requires j < |arguments|
    requires IsKeywordArgument(arguments[j]) ||
             (IsPositionalArgument(arguments[j]) && !PositionalsStopped(arguments[..j], olderThan35))
    ensures var r := Analyze(arguments, parameters, olderThan35);
      var x := arguments[j];
      Get(r.mappedParameters, x).Some? || Get(r.mappedTupleParameters, x).Some? ||
      x in r.unmappedArguments
  {
    var x := arguments[j];
    FilterMembers(arguments, IsKeywordArgument);
    PositionalPoolMembers(arguments, olderThan35, x);
    var s := Start(arguments, parameters, olderThan35);
    assert Accounted(s, x);
    RunKeepsAccounted(CallOf(arguments, olderThan35), s, parameters, x);
  }

  // ---- the leftovers ----

  /**
   * After the loop the unmapped arguments are those reported by tuple matching,
   * then the positional pool as it is left, then the keyword pool, then the `*x`
   * and the `**x` arguments; those last two are dropped once some parameter was
   * satisfied through them.
   */
  lemma LeftoverArguments(s: State)
    ensures var r := Finish(s);
      var u := |s.unmappedArgs|;
      var p := u + |s.positional|;
      var q := p + |s.keywords|;
      q <= |r.unmappedArguments| &&
      r.unmappedArguments[..u] == s.unmappedArgs &&
      r.unmappedArguments[u..p] == s.positional &&
      r.unmappedArguments[p..q] == s.keywords &&
      r.unmappedArguments[q..] == (if s.mappedVariadic then [] else s.variadicPositional + s.variadicKeyword) &&
      forall x :: x in r.unmappedArguments <==>
        x in s.unmappedArgs || x in s.positional || x in s.keywords ||
        (!s.mappedVariadic && (x in s.variadicPositional || x in s.variadicKeyword))
  {
    var r := Finish(s);
    var u := |s.unmappedArgs|;
    var p := u + |s.positional|;
    var q := p + |s.keywords|;
    assert r.unmappedArguments[..u] == s.unmappedArgs;
    assert r.unmappedArguments[u..p] == s.positional;
    assert r.unmappedArguments[p..q] == s.keywords;
  }

  /** The positional arguments reported unmapped are the last ones of the positional pool. */
  lemma LeftoverPositionalsAreTheLast(arguments: seq<Expr>, parameters: seq<Param>, olderThan35: bool)
    ensures var t := Run(CallOf(arguments, olderThan35), Start(arguments, parameters, olderThan35), parameters);
      var pool := SplitPositional(arguments, olderThan35).positional;
      var r := Analyze(arguments, parameters, olderThan35);
      var u := |t.unmappedArgs|;
      |t.positional| <= |pool| && u + |t.positional| <= |r.unmappedArguments| &&
      r.unmappedArguments[u..u + |t.positional|] == pool[|pool| - |t.positional|..]
  {
    var s := Start(arguments, parameters, olderThan35);
    var t := ShrinkAlong(CallOf(arguments, olderThan35), s, parameters);
    assert s.positional == SplitPositional(arguments, olderThan35).positional;
    assert IsSuffix(t.positional, s.positional);
    assert Analyze(arguments, parameters, olderThan35) == Finish(t);
    LeftoverPositionals(t);
  }

  /** The positional segment of LeftoverArguments alone. */
  lemma LeftoverPositionals(s: State)
    ensures var r := Finish(s);
      var u := |s.unmappedArgs|;
      u + |s.positional| <= |r.unmappedArguments| &&
      r.unmappedArguments[u..u + |s.positional|] == s.positional
  {
    assert Finish(s).unmappedArguments[|s.unmappedArgs|..|s.unmappedArgs| + |s.positional|] == s.positional;
  }


  // ---- the maps have no repeated key ----

  /** The argument-to-parameter maps never hold the same argument twice. */
  predicate KeysDistinct(s: State)
  {
    NoDuplicates(Keys(s.mapped)) && NoDuplicates(Keys(s.tupleMapped))
  }

  lemma StepKeepsKeysDistinct(c: Call, s: State, p: Param)
    requires KeysDistinct(s)
    ensures KeysDistinct(Step(c, s, p))
  {
    if p.kind.Named? && p.kind.role == Normal && !s.seenSingleStar && !p.kind.isParamSpec {
      OrdinaryKeepsKeysDistinct(c, s, p);
    } else if p.kind.Named? {
      ContainerKeepsKeysDistinct(c, s, p);
    } else {
      MarkerKeepsKeysDistinct(c, s, p);
    }
  }

  /** A tuple parameter, the `/` and `*` markers and any other parameter. */
  lemma MarkerKeepsKeysDistinct(c: Call, s: State, p: Param)
    requires KeysDistinct(s) && !p.kind.Named?
    ensures KeysDistinct(Step(c, s, p))
  {
    if p.kind.Tuple? {
      assert Step(c, s, p) == BindTuple(s, p);
      TupleKeepsKeysDistinct(s, p);
    }
  }

  lemma TupleKeepsKeysDistinct(s: State, p: Param)
    requires KeysDistinct(s) && p.kind.Tuple?
    ensures KeysDistinct(BindTuple(s, p))
  {
    if s.positional != [] {
      PutKeepsDistinct(s.tupleMapped, s.positional[0], p);
      PutAllKeepsDistinct(s.mapped, MapTupleParameter(s.positional[0], p).mapped);
    }
  }

  /** `*args`, `**kwargs`, a keyword-only parameter and a ParamSpec parameter. */
  lemma ContainerKeepsKeysDistinct(c: Call, s: State, p: Param)
    requires KeysDistinct(s) && p.kind.Named?
    requires p.kind.role != Normal || s.seenSingleStar || p.kind.isParamSpec
    ensures KeysDistinct(Step(c, s, p))
  {
    if p.kind.role == VarPositional {
      assert Step(c, s, p) == BindVarPositional(s, p);
      var m := PutEach(s.mapped, s.positional, p);
      PutEachKeepsDistinct(s.mapped, s.positional, p);
      if |s.variadicPositional| == 1 {
        PutKeepsDistinct(m, s.variadicPositional[0], p);
      }
    } else if p.kind.role == VarKeyword {
      assert Step(c, s, p) == BindVarKeyword(s, p);
      PutEachKeepsDistinct(s.mapped, s.keywords, p);
      PutEachKeepsDistinct(PutEach(s.mapped, s.keywords, p), s.variadicKeyword, p);
    } else if s.seenSingleStar {
      assert Step(c, s, p) == BindKeywordOnly(s, p);
      KeywordPutKeepsDistinct(s, p);
    } else {
      assert Step(c, s, p) == BindParamSpec(c, s, p);
      PutEachKeepsDistinct(s.mapped, c.arguments, p);
    }
  }

  /** Binding the first keyword argument with the parameter's name, if there is one. */
  lemma KeywordPutKeepsDistinct(s: State, p: Param)
    requires KeysDistinct(s) && p.kind.Named?
    ensures var (found, _) := RemoveKeyword(s.keywords, p.kind.name);
      found.Some? ==> NoDuplicates(Keys(Put(s.mapped, found.value, p)))
  {
    var (found, _) := RemoveKeyword(s.keywords, p.kind.name);
    if found.Some? {
      PutKeepsDistinct(s.mapped, found.value, p);
    }
  }

  /** An ordinary parameter before any bare `*`. */
  lemma OrdinaryKeepsKeysDistinct(c: Call, s: State, p: Param)
    requires KeysDistinct(s) && p.kind.Named? && p.kind.role == Normal
    requires !s.seenSingleStar && !p.kind.isParamSpec
    ensures KeysDistinct(Step(c, s, p))
  {
    if s.positionalOnlyMode {
      assert Step(c, s, p) == BindPositionalOnly(s, p);
      if s.positional != [] {
        PutKeepsDistinct(s.mapped, s.positional[0], p);
      }
    } else if s.positional == [] {
      assert Step(c, s, p) == BindByKeyword(s, p);
      KeywordPutKeepsDistinct(s, p);
    } else {
      assert Step(c, s, p) == BindNextPositional(c, s, p);
      PutKeepsDistinct(s.mapped, s.positional[0], p);
    }
  }

  lemma {:induction false} RunKeepsKeysDistinct(c: Call, s: State, ps: seq<Param>)
    requires KeysDistinct(s)
    ensures KeysDistinct(Run(c, s, ps))
  {
    if ps != [] {
      RunKeepsKeysDistinct(c, s, ps[..|ps| - 1]);
      StepKeepsKeysDistinct(c, Run(c, s, ps[..|ps| - 1]), ps[|ps| - 1]);
    }
  }

  /**
   * Like the LinkedHashMaps they stand for, the mapped parameters and the mapped
   * tuple parameters of a finished analysis hold each argument at most once.
   */
  lemma AnalyzedKeysDistinct(arguments: seq<Expr>, parameters: seq<Param>, olderThan35: bool)
    ensures var r := Analyze(arguments, parameters, olderThan35);
      NoDuplicates(Keys(r.mappedParameters)) && NoDuplicates(Keys(r.mappedTupleParameters))
  {
    RunKeepsKeysDistinct(CallOf(arguments, olderThan35), Start(arguments, parameters, olderThan35), parameters);
  }

  // ---- tuple parameters ----

  /**
   * A flat tuple parameter given a display of distinct elements binds, in the
   * analysis's map, its i-th name to the i-th element, and takes the display
   * itself into the tuple map.
   */
  lemma TupleComponentsBound(s: State, p: Param, id: nat, elements: seq<Expr>)
    requires p.kind.Tuple? && forall c :: c in p.kind.components ==> c.kind.Named?
    requires s.positional != [] && s.positional[0] == Expr(id, SequenceLiteral(elements))
    requires NoDuplicates(elements)
    ensures var t := BindTuple(s, p);
      var comps := p.kind.components;
      Get(t.tupleMapped, s.positional[0]) == Some(p) && t.positional == s.positional[1..] &&
      forall i :: 0 <= i < |comps| && i < |elements| ==> Get(t.mapped, elements[i]) == Some(comps[i])
  {
    var r := MapTupleParameter(s.positional[0], p);
    assert BindTuple(s, p).mapped == PutAll(s.mapped, r.mapped);
    forall i | 0 <= i < |p.kind.components| && i < |elements|
      ensures Get(PutAll(s.mapped, r.mapped), elements[i]) == Some(p.kind.components[i])
    {
      FlatComponentLookup(s.mapped, p, id, elements, i);
    }
  }

  /** One component of a flat tuple, looked up after its matches are put into `m`. */
  lemma FlatComponentLookup(m: LinkedMap<Expr, Param>, p: Param, id: nat, elements: seq<Expr>, i: nat)
    requires p.kind.Tuple? && forall c :: c in p.kind.components ==> c.kind.Named?
    requires NoDuplicates(elements) && i < |p.kind.components| && i < |elements|
    ensures Get(PutAll(m, MapTupleParameter(Expr(id, SequenceLiteral(elements)), p).mapped), elements[i])
            == Some(p.kind.components[i])
  {
    var r := MapTupleParameter(Expr(id, SequenceLiteral(elements)), p);
    FlatTupleBinding(elements, id, p);
    var n := if |p.kind.components| < |elements| then |p.kind.components| else |elements|;
    PutAllPrefix(m, r.mapped, elements, n, i);
  }

  /** Putting a map whose keys are a prefix of distinct elements. */
  lemma PutAllPrefix(m: LinkedMap<Expr, Param>, r: LinkedMap<Expr, Param>, elements: seq<Expr>, n: nat, i: nat)
    requires NoDuplicates(elements) && i < n <= |elements| && Keys(r) == elements[..n]
    ensures Get(PutAll(m, r), elements[i]) == Get(r, elements[i])
  {
    assert NoDuplicates(Keys(r));
    assert Keys(r)[i] == elements[i];
    PutAllLookup(m, r, elements[i]);
  }


  // ---- where the plugin departs from Python's rules ----

  /**
   * While a `/` is still ahead, an ordinary parameter with no positional argument
   * left is reported unmapped even when a `*x` argument could supply it: unlike
   * the other branches, this one never looks at the `*x` and `**x` pools.
   */
  lemma PositionalOnlyIgnoresStar(c: Call, s: State, p: Param)
    requires IsPlainNamed(p) && !s.seenSingleStar && s.positionalOnlyMode
    requires s.positional == [] && !HasDefault(p)
    ensures var t := Step(c, s, p);
      t.unmappedParams == s.unmappedParams + [p] && t.mapped == s.mapped &&
      t.viaVarPositional == s.viaVarPositional && t.mappedVariadic == s.mappedVariadic &&
      t.variadicPositional == s.variadicPositional
  {
    assert Step(c, s, p) == BindPositionalOnly(s, p);
  }

  /** `def f(a, /)` called as `f(*xs)`: `a` is reported unmapped and `*xs` left over. */
  lemma PositionalOnlyStarExample()
    ensures var xs := Expr(0, Star(None));
      var a := Param(0, Named(Some("a"), Normal, false, false));
      var r := Analyze([xs], [a, Param(1, Slash)], false);
      r.unmappedParameters == [a] && r.unmappedArguments == [xs] && r.mappedParameters == []
  {
    var xs := Expr(0, Star(None));
    var a := Param(0, Named(Some("a"), Normal, false, false));
    var ps := [a, Param(1, Slash)];
    assert HasSlash(ps) by {
      assert ps[1].kind.Slash?;
    }
    assert [xs][..0] == [];
    assert SplitPositional([xs], false) == PositionalArguments([], [], [xs]);
    assert Filter([xs], IsKeywordArgument) == [];
    assert Filter([xs], IsVariadicKeywordArgument) == [];
    var c := CallOf([xs], false);
    var s0 := Start([xs], ps, false);
    assert s0 == State(true, false, false, [], [], [], [], [], [], [], [], [xs], []);
    var s1 := Step(c, s0, a);
    assert s1 == s0.(unmappedParams := [a]);
    assert ps[..1] == [a] && ps[..1][..0] == [];
    assert Run(c, s0, ps[..1]) == s1;
    assert Run(c, s0, ps) == s1.(positionalOnlyMode := false);
  }

  /**
   * An ordinary parameter followed by a ParamSpec-typed parameter, called with one
   * argument `x`: `x` is first bound to the ordinary parameter, then rebound to the
   * ParamSpec parameter, which takes every argument of the call.
   */
  lemma ParamSpecRebindsExample()
    ensures var x := Expr(0, Plain);
      var first := Param(0, Named(Some("__p0"), Normal, false, false));
      var spec := Param(1, Named(Some("args"), Normal, false, true));
      var r := Analyze([x], [first, spec], false);
      Get(r.mappedParameters, x) == Some(spec) && r.unmappedArguments == [] && r.unmappedParameters == []
  {
    var x := Expr(0, Plain);
    var first := Param(0, Named(Some("__p0"), Normal, false, false));
    var spec := Param(1, Named(Some("args"), Normal, false, true));
    var ps := [first, spec];
    assert !HasSlash(ps);
    assert [x][..0] == [];
    assert SplitPositional([x], false) == PositionalArguments([x], [], []);
    assert Filter([x], IsKeywordArgument) == [];
    assert Filter([x], IsVariadicKeywordArgument) == [];
    var c := CallOf([x], false);
    var s0 := Start([x], ps, false);
    assert s0 == State(false, false, false, [], [], [], [], [], [], [x], [], [], []);
    var s1 := Step(c, s0, first);
    assert s1 == s0.(mapped := [(x, first)], positional := []);
    assert ps[..1] == [first] && ps[..1][..0] == [];
    assert Run(c, s0, ps[..1]) == s1;
    var s2 := Run(c, s0, ps);
    assert s2 == Step(c, s1, spec);
    assert s2.mapped == PutEach([(x, first)], [x], spec);
    assert s2.positional == [] && s2.keywords == [] && s2.variadicPositional == [] && s2.variadicKeyword == [];
  }
}
