/**
 * Choosing among resolve results that include `@overload` declarations (PEP 484)
 * next to the implementation they describe, and among a class's `__init__` and
 * `__new__` when resolving a constructor call.
 *
 * The lists are generic in Kotlin: each element is mapped to the PSI element it
 * stands for, which may be null. Here a `Candidate` carries that mapping's
 * outcome, `target`, with what the type evaluator says about it.
 */
module Overloads {
  import opened Options
  import opened Sequences
  import opened ArgumentMapping
  import opened ImplicitArguments
  import opened LinkedMaps
  import opened CallModel
  import opened ArgumentPools
  import opened MappingProperties

  /** What the PSI element a candidate maps to is. */
  datatype Target = Target(
    isOverload: bool,                 // PyiUtil.isOverload
    insideStub: bool,                 // PyiUtil.isInsideStub
    scope: Option<nat>,               // ScopeUtil.getScopeOwner, when it has one
    fullMapping: ArgumentsMapping,    // mapArguments of the call site against it, when it is an overload
    unifies: bool)                    // unifyGenericCallWithParamSpecs succeeds on that mapping

  datatype Candidate = Candidate(id: nat, target: Option<Target>)

  predicate IsOverload(e: Candidate)
  {
    e.target.Some? && e.target.value.isOverload
  }

  predicate IsImplementation(e: Candidate)
  {
    e.target.Some? && !e.target.value.isOverload
  }

  /** Among the candidates that map to something, there is an overload and an implementation. */
  predicate MixesOverloadsAndImplementations(es: seq<Candidate>)
  {
    (exists i :: 0 <= i < |es| && IsOverload(es[i])) &&
    (exists j :: 0 <= j < |es| && IsImplementation(es[j]))
  }

  /** containsOverloadsAndImplementations. */
  method ContainsOverloadsAndImplementations(elements: seq<Candidate>) returns (r: bool)
    ensures r == MixesOverloadsAndImplementations(elements)
  {
    var containsOverloads := false;
    var containsImplementations := false;
    for i := 0 to |elements|
      invariant containsOverloads <==> exists k :: 0 <= k < i && IsOverload(elements[k])
      invariant containsImplementations <==> exists k :: 0 <= k < i && IsImplementation(elements[k])
      invariant !(containsOverloads && containsImplementations)
    {
      var mapped := elements[i].target;
      if mapped.None? {
        continue;
      }
      var overload := mapped.value.isOverload;
      containsOverloads := containsOverloads || overload;
      containsImplementations := containsImplementations || !overload;
      if containsOverloads && containsImplementations {
        return true;
      }
    }
    return false;
  }

  /** What survives in a group that mixes overloads and implementations. */
  predicate OverloadOrStub(e: Candidate)
  {
    e.target.Some? && (e.target.value.insideStub || e.target.value.isOverload)
  }

  /**
   * takeOverloadsOtherwiseImplementations: when overloads and implementations are
   * mixed, the overloads and the stub declarations, in order; otherwise every
   * candidate. Never empties a mixed list, since its overloads stay.
   */
  function TakeOverloadsOtherwiseImplementations(elements: seq<Candidate>): (r: seq<Candidate>)
    ensures IsSubsequence(r, elements)
    ensures !MixesOverloadsAndImplementations(elements) ==> r == elements
    ensures MixesOverloadsAndImplementations(elements) ==>
      r != [] && forall x :: x in r <==> x in elements && OverloadOrStub(x)
  {
    if !MixesOverloadsAndImplementations(elements) then
      SubsequenceOfSelf(elements);
      elements
    else
      FilterMembers(elements, OverloadOrStub);
      FilterIsSubsequence(elements, OverloadOrStub);
      OverloadsStay(elements);
      Filter(elements, OverloadOrStub)
  }

  lemma OverloadsStay(elements: seq<Candidate>)
    requires MixesOverloadsAndImplementations(elements)
    ensures Filter(elements, OverloadOrStub) != []
  {
    var i :| 0 <= i < |elements| && IsOverload(elements[i]);
    FilterMembers(elements, OverloadOrStub);
    assert elements[i] in Filter(elements, OverloadOrStub);
  }

  /** The scope owner of the element a candidate maps to; none when it maps to nothing. */
  function ScopeOf(e: Candidate): Option<nat>
  {
    if e.target.None? then None else e.target.value.scope
  }

  /** Each scope's candidates filtered by themselves, scope after scope. */
  function TakeInEveryScope(elements: seq<Candidate>, scopes: seq<Option<nat>>): seq<Candidate>
  {
    if scopes == [] then []
    else TakeOverloadsOtherwiseImplementations(Group(elements, ScopeOf, scopes[0]))
         + TakeInEveryScope(elements, scopes[1..])
  }

  /**
   * forEveryScopeTakeOverloadsOtherwiseImplementations: unchanged unless the list
   * mixes overloads and implementations; otherwise grouped by scope, groups in the
   * order their scopes first occur, and every group filtered on its own.
   */
  function ForEveryScopeTakeOverloadsOtherwiseImplementations(elements: seq<Candidate>): (r: seq<Candidate>)
    ensures !MixesOverloadsAndImplementations(elements) ==> r == elements
  {
    if !MixesOverloadsAndImplementations(elements) then elements
    else TakeInEveryScope(elements, FirstSeen(elements, ScopeOf))
  }

  /**
   * A candidate survives the per-scope filtering exactly when its own scope does
   * not mix overloads and implementations, or it is an overload or a stub
   * declaration. So a non-empty list never comes out empty.
   */
  lemma ForEveryScopeMembers(elements: seq<Candidate>, x: Candidate)
    ensures x in ForEveryScopeTakeOverloadsOtherwiseImplementations(elements) <==>
      x in elements &&
      ((MixesOverloadsAndImplementations(elements) &&
        MixesOverloadsAndImplementations(Group(elements, ScopeOf, ScopeOf(x)))) ==> OverloadOrStub(x))
  {
    if MixesOverloadsAndImplementations(elements) {
      var scopes := FirstSeen(elements, ScopeOf);
      TakeInEveryScopeMembers(elements, scopes, x);
      GroupMembers(elements, ScopeOf, ScopeOf(x));
      if x in elements {
        var i :| 0 <= i < |elements| && elements[i] == x;
        FirstSeenMembers(elements, ScopeOf, ScopeOf(x));
      }
    }
  }

  lemma {:induction false} TakeInEveryScopeMembers(elements: seq<Candidate>, scopes: seq<Option<nat>>, x: Candidate)
    ensures x in TakeInEveryScope(elements, scopes) <==>
      x in elements && ScopeOf(x) in scopes &&
      (MixesOverloadsAndImplementations(Group(elements, ScopeOf, ScopeOf(x))) ==> OverloadOrStub(x))
  {
    if scopes != [] {
      TakeInEveryScopeMembers(elements, scopes[1..], x);
      GroupMembers(elements, ScopeOf, scopes[0]);
      assert ScopeOf(x) in scopes <==> ScopeOf(x) == scopes[0] || ScopeOf(x) in scopes[1..];
    }
  }

  /** The per-scope filtering keeps at least one candidate of a non-empty list. */
  lemma ForEveryScopeKeepsOne(elements: seq<Candidate>)
    requires elements != []
    ensures ForEveryScopeTakeOverloadsOtherwiseImplementations(elements) != []
  {
    if MixesOverloadsAndImplementations(elements) {
      var i :| 0 <= i < |elements| && IsOverload(elements[i]);
      ForEveryScopeMembers(elements, elements[i]);
    }
  }

  /**
   * notMatchedOverload: an overload the call does not fit, because an argument or
   * a parameter is left over, or the generic call does not unify. Anything that is
   * not an overload, or maps to nothing, is never ruled out.
   */
  predicate NotMatchedOverload(t: Option<Target>)
  {
    t.Some? && t.value.isOverload &&
    (t.value.fullMapping.results.unmappedArguments != [] ||
     t.value.fullMapping.results.unmappedParameters != [] ||
     !t.value.unifies)
  }

  /**
   * An overload that is not ruled out, when its explicit parameters were bound by
   * the analysis, binds every keyword argument and every positional argument that
   * comes before the first keyword or `**x` argument, leaves no parameter
   * unbound, and unifies.
   */
  lemma MatchedOverloadBindsArguments(t: Target, arguments: seq<Expr>, parameters: seq<Param>,
                                      olderThan35: bool, j: nat)
    requires t.isOverload && !NotMatchedOverload(Some(t))
    requires t.fullMapping.results == Analyze(arguments, parameters, olderThan35)
    requires j < |arguments|
    requires IsKeywordArgument(arguments[j]) ||
             (IsPositionalArgument(arguments[j]) && !PositionalsStopped(arguments[..j], olderThan35))
    ensures var r := t.fullMapping.results;
      (Get(r.mappedParameters, arguments[j]).Some? || Get(r.mappedTupleParameters, arguments[j]).Some?) &&
      r.unmappedParameters == [] && t.unifies
  {
    NoArgumentLost(arguments, parameters, olderThan35, j);
  }

  predicate Matched(e: Candidate)
  {
    !NotMatchedOverload(e.target)
  }

  /**
   * dropNotMatchedOverloadsOrLeaveAsIs: the candidates the call may match, in
   * order, unless that rules out every one, in which case all are kept.
   */
  function DropNotMatchedOverloadsOrLeaveAsIs(elements: seq<Candidate>): (r: seq<Candidate>)
    ensures IsSubsequence(r, elements)
    ensures elements != [] ==> r != []
    ensures (exists i :: 0 <= i < |elements| && Matched(elements[i])) ==>
      forall x :: x in r <==> x in elements && Matched(x)
    ensures (forall i :: 0 <= i < |elements| ==> !Matched(elements[i])) ==> r == elements
    ensures forall x :: x in elements && !IsOverload(x) ==> x in r
  {
    var filtered := Filter(elements, Matched);
    FilterMembers(elements, Matched);
    FilterIsSubsequence(elements, Matched);
    SubsequenceOfSelf(elements);
    NoneMatched(elements);
    if filtered == [] then
      elements
    else
      filtered
  }

  lemma NoneMatched(elements: seq<Candidate>)
    ensures (forall i :: 0 <= i < |elements| ==> !Matched(elements[i])) ==> Filter(elements, Matched) == []
  {
    FilterMembers(elements, Matched);
    if Filter(elements, Matched) != [] {
      assert Filter(elements, Matched)[0] in elements;
    }
  }

  /**
   * preferInitOverNew: the `__init__` functions, in order, if there are any;
   * otherwise all the functions, regrouped by name.
   */
  function PreferInitOverNew(initAndNew: seq<Callable>): (r: seq<Callable>)
    ensures (exists i :: 0 <= i < |initAndNew| && initAndNew[i].name == Init) ==>
      r != [] && IsSubsequence(r, initAndNew) && (forall f :: f in r <==> f in initAndNew && f.name == Init) &&
      r == Filter(initAndNew, IsInit)
    ensures (forall i :: 0 <= i < |initAndNew| ==> initAndNew[i].name != Init) ==>
      multiset(r) == multiset(initAndNew)
  {
    if exists i :: 0 <= i < |initAndNew| && initAndNew[i].name == Init then
      GroupMembers(initAndNew, NameOf, Init);
      GroupIsSubsequence(initAndNew, NameOf, Init);
      InitsFound(initAndNew);
      GroupIsFilter(initAndNew, NameOf, Init, IsInit);
      Group(initAndNew, NameOf, Init)
    else
      RegroupIsPermutation(initAndNew, NameOf);
      Regroup(initAndNew, NameOf)
  }

  lemma InitsFound(initAndNew: seq<Callable>)
    requires exists i :: 0 <= i < |initAndNew| && initAndNew[i].name == Init
    ensures Group(initAndNew, NameOf, Init) != []
  {
    var i :| 0 <= i < |initAndNew| && initAndNew[i].name == Init;
    GroupMembers(initAndNew, NameOf, Init);
    assert initAndNew[i] in Group(initAndNew, NameOf, Init);
  }

  function NameOf(f: Callable): string
  {
    f.name
  }

  predicate IsInit(f: Callable)
  {
    f.name == Init
  }

  /** Constructors resolve to `__init__` and `__new__`; without `__init__`, every `__new__` in order. */
  lemma OnlyNewKeepsOrder(initAndNew: seq<Callable>)
    requires forall i :: 0 <= i < |initAndNew| ==> initAndNew[i].name == New
    ensures PreferInitOverNew(initAndNew) == initAndNew
  {
    RegroupOneKey(initAndNew, NameOf, New);
  }
}
