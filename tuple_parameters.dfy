/**
 * Python 2 tuple parameters, `def f((a, b), c)` (removed by PEP 3113): the
 * components of a tuple parameter are matched against the elements of a tuple or
 * list display passed for it, position by position and recursively for nested
 * tuples.
 */
module TupleParameters {
  import opened Options
  import opened LinkedMaps
  import opened CallModel
  import opened Sequences

  /** What mapComponentsOfTupleParameter returns. */
  datatype TupleResults = TupleResults(
    mapped: LinkedMap<Expr, Param>,
    unmappedParams: seq<Param>,
    unmappedArgs: seq<Expr>)

  /** The first `n` components of the tuple parameter `t` matched against `elements`. */
  function MatchComponents(elements: seq<Expr>, t: Param, n: nat): TupleResults
    requires t.kind.Tuple? && n <= |t.kind.components|
    decreases t, n
  {
    if n == 0 then TupleResults([], [], [])
    else
      var r := MatchComponents(elements, t, n - 1);
      var param := t.kind.components[n - 1];
      if n - 1 < |elements| then
        var arg := elements[n - 1];
        match param.kind
        case Named(_, _, _, _) => r.(mapped := Put(r.mapped, arg, param))
        case Tuple(_, _) =>
          var nested := MapTupleParameter(arg, param);
          TupleResults(PutAll(r.mapped, nested.mapped),
                       r.unmappedParams + nested.unmappedParams,
                       r.unmappedArgs + nested.unmappedArgs)
        case _ => r.(unmappedArgs := r.unmappedArgs + [arg])
      else r.(unmappedParams := r.unmappedParams + [param])
  }

  /** The tuple parameter `t` matched against the argument passed for it. */
  function MapTupleParameter(arg: Expr, t: Param): TupleResults
    requires t.kind.Tuple?
    decreases t, |t.kind.components| + 1
  {
    match arg.kind
    case SequenceLiteral(elements) =>
      var comps := t.kind.components;
      var r := MatchComponents(elements, t, |comps|);
      r.(unmappedArgs := r.unmappedArgs + (if |elements| > |comps| then elements[|comps|..] else []))
    case _ => TupleResults([], [], [])
  }

  method MapComponentsOfTupleParameter(argument: Expr, parameter: Param) returns (r: TupleResults)
    requires parameter.kind.Tuple?
    ensures r == MapTupleParameter(argument, parameter)
    decreases parameter
  {
    var unmappedParameters: seq<Param> := [];
    var unmappedArguments: seq<Expr> := [];
    var mappedParameters: LinkedMap<Expr, Param> := [];
    if argument.kind.SequenceLiteral? {
      var argumentComponents := argument.kind.elements;
      var parameterComponents := parameter.kind.components;
      for i := 0 to |parameterComponents|
        invariant TupleResults(mappedParameters, unmappedParameters, unmappedArguments)
          == MatchComponents(argumentComponents, parameter, i)
      {
        var param := parameterComponents[i];
        if i < |argumentComponents| {
          var arg := argumentComponents[i];
          if param.kind.Named? {
            mappedParameters := Put(mappedParameters, arg, param);
          } else if param.kind.Tuple? {
            var nestedResults := MapComponentsOfTupleParameter(arg, param);
            mappedParameters := PutAll(mappedParameters, nestedResults.mapped);
            unmappedParameters := unmappedParameters + nestedResults.unmappedParams;
            unmappedArguments := unmappedArguments + nestedResults.unmappedArgs;
          } else {
            unmappedArguments := unmappedArguments + [arg];
          }
        } else {
          unmappedParameters := unmappedParameters + [param];
        }
      }
      if |argumentComponents| > |parameterComponents| {
        ghost var before := unmappedArguments;
        for i := |parameterComponents| to |argumentComponents|
          invariant unmappedArguments == before + argumentComponents[|parameterComponents|..i]
        {
          unmappedArguments := unmappedArguments + [argumentComponents[i]];
        }
      }
    }
    r := TupleResults(mappedParameters, unmappedParameters, unmappedArguments);
  }

  /** Every parameter a tuple match reports unmapped is a component of the tuple, at some depth. */
  lemma {:induction false} UnmappedAreComponents(arg: Expr, t: Param)
    requires t.kind.Tuple?
    ensures forall q :: q in MapTupleParameter(arg, t).unmappedParams ==> IsNestedComponent(q, t)
    decreases t, |t.kind.components| + 1
  {
    if arg.kind.SequenceLiteral? {
      MatchedUnmappedAreComponents(arg.kind.elements, t, |t.kind.components|);
    }
  }

  lemma {:induction false} MatchedUnmappedAreComponents(elements: seq<Expr>, t: Param, n: nat)
    requires t.kind.Tuple? && n <= |t.kind.components|
    ensures forall q :: q in MatchComponents(elements, t, n).unmappedParams ==> IsNestedComponent(q, t)
    decreases t, n
  {
    if n > 0 {
      MatchedUnmappedAreComponents(elements, t, n - 1);
      var param := t.kind.components[n - 1];
      assert IsNestedComponent(param, t);
      if n - 1 < |elements| && param.kind.Tuple? {
        var nested := MapTupleParameter(elements[n - 1], param);
        UnmappedAreComponents(elements[n - 1], param);
        forall q | q in nested.unmappedParams ensures IsNestedComponent(q, t) {
          assert IsNestedComponent(q, param);
        }
      }
    }
  }

  /**
   * A flat tuple parameter `(a, b, ...)` given a display of distinct elements binds
   * its i-th component to the i-th element; components without an element are
   * unmapped, and elements without a component are unmapped arguments.
   */
  lemma {:induction false} FlatTupleBinding(elements: seq<Expr>, id: nat, t: Param)
    requires t.kind.Tuple? && forall c :: c in t.kind.components ==> c.kind.Named?
    requires NoDuplicates(elements)
    ensures var r := MapTupleParameter(Expr(id, SequenceLiteral(elements)), t);
      var comps := t.kind.components;
      (forall i :: 0 <= i < |comps| && i < |elements| ==> Get(r.mapped, elements[i]) == Some(comps[i])) &&
      Keys(r.mapped) == elements[..if |comps| < |elements| then |comps| else |elements|] &&
      r.unmappedParams == (if |comps| > |elements| then comps[|elements|..] else []) &&
      r.unmappedArgs == (if |elements| > |comps| then elements[|comps|..] else [])
  {
    var comps := t.kind.components;
    var r := FlatMatch(elements, t, |comps|);
    var rest := if |elements| > |comps| then elements[|comps|..] else [];
    assert MapTupleParameter(Expr(id, SequenceLiteral(elements)), t) == r.(unmappedArgs := r.unmappedArgs + rest);
    assert r.unmappedArgs + rest == rest;
  }

  lemma {:induction false} FlatMatch(elements: seq<Expr>, t: Param, n: nat) returns (r: TupleResults)
    requires t.kind.Tuple? && forall c :: c in t.kind.components ==> c.kind.Named?
    requires n <= |t.kind.components|
    requires NoDuplicates(elements)
    ensures r == MatchComponents(elements, t, n)
    ensures FlatResult(r, elements, t.kind.components, n)
  {
    var comps := t.kind.components;
    if n == 0 {
      r := TupleResults([], [], []);
    } else {
      var prev := FlatMatch(elements, t, n - 1);
      if n - 1 < |elements| {
        assert comps[n - 1] in comps;
        r := prev.(mapped := Put(prev.mapped, elements[n - 1], comps[n - 1]));
        FlatNamedStep(prev, elements, comps, n);
      } else {
        r := prev.(unmappedParams := prev.unmappedParams + [comps[n - 1]]);
        FlatMissingStep(prev, elements, comps, n);
      }
    }
  }

  /** The first `n` of `comps` bound to `elements` one to one, as far as both go. */
  predicate FlatResult(r: TupleResults, elements: seq<Expr>, comps: seq<Param>, n: nat)
    requires n <= |comps|
  {
    (forall i :: 0 <= i < n && i < |elements| ==> Get(r.mapped, elements[i]) == Some(comps[i])) &&
    Keys(r.mapped) == elements[..if n < |elements| then n else |elements|] &&
    r.unmappedParams == (if n > |elements| then comps[|elements|..n] else []) &&
    r.unmappedArgs == []
  }

  lemma FlatNamedStep(prev: TupleResults, elements: seq<Expr>, comps: seq<Param>, n: nat)
    requires 0 < n <= |comps| && n - 1 < |elements| && NoDuplicates(elements)
    requires FlatResult(prev, elements, comps, n - 1)
    ensures FlatResult(prev.(mapped := Put(prev.mapped, elements[n - 1], comps[n - 1])), elements, comps, n)
  {
    var e := elements[n - 1];
    var r := prev.(mapped := Put(prev.mapped, e, comps[n - 1]));
    PrefixSnoc(elements, n);
    FreshInPrefix(elements, n - 1);
    assert Keys(r.mapped) == elements[..n];
    forall i | 0 <= i < n && i < |elements|
      ensures Get(r.mapped, elements[i]) == Some(comps[i])
    {
      if i < n - 1 { assert elements[i] != e; }
    }
  }

  lemma FlatMissingStep(prev: TupleResults, elements: seq<Expr>, comps: seq<Param>, n: nat)
    requires 0 < n <= |comps| && |elements| < n
    requires FlatResult(prev, elements, comps, n - 1)
    ensures FlatResult(prev.(unmappedParams := prev.unmappedParams + [comps[n - 1]]), elements, comps, n)
  {
    assert comps[|elements|..n] == comps[|elements|..n - 1] + [comps[n - 1]];
  }

  lemma PrefixSnoc(xs: seq<Expr>, n: nat)
    requires 0 < n <= |xs|
    ensures xs[..n] == xs[..n - 1] + [xs[n - 1]]
  {
  }

  lemma FreshInPrefix(xs: seq<Expr>, n: nat)
    requires NoDuplicates(xs) && n < |xs|
    ensures xs[n] !in xs[..n]
  {
  }
}
