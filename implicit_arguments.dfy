/**
 * Parameters a call fills implicitly: `self` on a call through an instance or a
 * constructor call, `cls` on a class method called through its class or on
 * `__new__` in a constructor call. getImplicitArgumentCount counts them, and
 * mapArguments and filterExplicitParameters cut them off the front of the
 * parameter list before the explicit arguments are bound.
 */
module ImplicitArguments {
  import opened Options
  import opened CallModel
  import opened ArgumentMapping

  const Init: string := "__init__"
  const New: string := "__new__"

  /** PyFunction.Modifier: the `@staticmethod` and `@classmethod` decorators. */
  datatype Modifier = StaticMethod | ClassMethod

  /**
   * A resolved callable: a function (a method when it is defined in a class) or
   * a lambda, with its parameters and decorator.
   */
  datatype Callable = Callable(
    name: string,
    parameters: seq<Param>,
    isFunction: bool,
    inClass: bool,
    modifier: Option<Modifier>)

  /** `callable.asMethod() != null`. */
  predicate IsMethod(c: Callable)
  {
    c.isFunction && c.inClass
  }

  /** `PyUtil.isInitOrNewMethod`: `__init__` or `__new__` defined in a class. */
  predicate IsInitOrNew(c: Callable)
  {
    IsMethod(c) && (c.name == Init || c.name == New)
  }

  /** The first parameter is `*args` or `**kwargs`, so it cannot be `self`. */
  predicate FirstIsArgsOrKwargs(ps: seq<Param>)
  {
    |ps| > 0 && (IsPositionalContainer(ps[0]) || IsKeywordContainer(ps[0]))
  }

  /**
   * The number of implicit parameters of a call to `c`, case by case. At most
   * two are implicit, and two only for a class method in a constructor call that
   * is not through an instance; `__new__` takes `cls` exactly in a
   * constructor call; `__init__` called neither through an instance nor through
   * a class takes `self`; a function outside a class takes `self` only when
   * called through an instance or as a constructor; and a first parameter that is
   * `*args` or `**kwargs` is never counted as `self`.
   */
  function ImplicitCount(c: Callable, modifier: Option<Modifier>, isConstructorCall: bool,
                         isByInstance: bool, isByClass: bool): (r: nat)
    ensures r <= 2
    ensures r == 2 ==> IsMethod(c) && modifier == Some(ClassMethod) && isConstructorCall && !isByInstance
    ensures IsMethod(c) && c.name == New ==> r == (if isConstructorCall then 1 else 0)
    ensures IsMethod(c) && c.name == Init && !isByInstance && !isByClass ==> r == 1
    ensures !IsMethod(c) ==>
      (r == 1 <==> !FirstIsArgsOrKwargs(c.parameters) && (isByInstance || isConstructorCall)) && r <= 1
    ensures (FirstIsArgsOrKwargs(c.parameters) &&
             !(IsMethod(c) && (c.name == New || c.name == Init || modifier == Some(ClassMethod)))) ==> r == 0
    ensures modifier == Some(StaticMethod) && isByInstance && IsMethod(c) && c.name != New ==> r == 0
  {
    var self := if !FirstIsArgsOrKwargs(c.parameters) && (isByInstance || isConstructorCall) then 1 else 0;
    if !IsMethod(c) then self
    else if c.name == New then (if isConstructorCall then 1 else 0)
    else if !isByInstance && !isByClass && c.name == Init then 1
    else match modifier
      case Some(StaticMethod) => if isByInstance then 0 else self
      case Some(ClassMethod) => if isByInstance then self else self + 1
      case None => self
  }

  /** The private getImplicitArgumentCount. */
  method ImplicitArgumentCount(callable: Callable, modifier: Option<Modifier>, isConstructorCall: bool,
                               isByInstance: bool, isByClass: bool) returns (implicitOffset: nat)
    ensures implicitOffset == ImplicitCount(callable, modifier, isConstructorCall, isByInstance, isByClass)
  {
    implicitOffset := 0;
    var firstIsArgsOrKwargs := false;
    var parameters := callable.parameters;
    if |parameters| > 0 {
      var first := parameters[0];
      if first.kind.Named? && (first.kind.role == VarPositional || first.kind.role == VarKeyword) {
        firstIsArgsOrKwargs := true;
      }
    }
    if !firstIsArgsOrKwargs && (isByInstance || isConstructorCall) {
      implicitOffset := implicitOffset + 1;
    }
    if !IsMethod(callable) {
      return;
    }
    if callable.name == New {
      implicitOffset := if isConstructorCall then 1 else 0;
      return;
    }
    if !isByInstance && !isByClass && callable.name == Init {
      implicitOffset := 1;
      return;
    }
    if modifier == Some(StaticMethod) {
      if isByInstance && implicitOffset > 0 {
        implicitOffset := implicitOffset - 1;
      }
    } else if modifier == Some(ClassMethod) {
      if !isByInstance {
        implicitOffset := implicitOffset + 1;
      }
    }
  }

  /**
   * The reference a call goes through (`f`, `x.f`, `C.f`), with what the type
   * evaluator concludes about its qualifier: a call through an instance, or
   * through a class.
   */
  datatype Reference = Reference(
    name: Option<string>,
    isQualified: bool,
    isByInstance: bool,
    isByClass: bool)

  /**
   * A constructor call reaches `__init__` or `__new__` by calling the class, not
   * by naming the method (`C.__init__(self)`, `super().__new__(cls)`).
   */
  predicate IsConstructorCall(ref: Reference, f: Callable)
  {
    IsInitOrNew(f) && (!ref.isQualified || (ref.name != Some(Init) && ref.name != Some(New)))
  }

  /** The public getImplicitArgumentCount, for a call through `ref` to the function `f`. */
  function ImplicitCountAt(ref: Reference, f: Callable): (r: nat)
    requires f.isFunction
    ensures r <= 2
    ensures r == 2 ==> f.name == Init && f.modifier == Some(ClassMethod) && ref.isByClass && !ref.isByInstance
    ensures (ref.isByInstance && !FirstIsArgsOrKwargs(f.parameters) && f.name != New &&
             f.modifier != Some(StaticMethod)) ==> r >= 1
  {
    ImplicitCount(f, f.modifier, IsConstructorCall(ref, f), ref.isByInstance, ref.isByClass)
  }

  /**
   * `C(...)` resolved to `__new__` passes `cls` implicitly; an explicit
   * `C.__new__(cls, ...)` or `super().__new__(cls)` does not.
   */
  lemma NewTakesClsOnlyInConstructorCalls(ref: Reference, f: Callable)
    requires IsMethod(f) && f.name == New
    ensures ImplicitCountAt(ref, f) == 1 <==> !ref.isQualified || (ref.name != Some(New) && ref.name != Some(Init))
    ensures ImplicitCountAt(ref, f) <= 1
  {
  }

  /** What the callee of a call site is. */
  datatype Callee = ReferenceCallee(reference: Reference) | OtherCallee

  /** A call expression, or another call site (a decorator, a subscription, an operator). */
  datatype CallSite = CallExpression(callee: Callee) | OtherCallSite

  /** The implicit offset filterExplicitParameters uses. */
  function ExplicitOffset(callable: Option<Callable>, site: CallSite): (r: nat)
    ensures r <= 2
    ensures site.OtherCallSite? ==> r == 1
    ensures site.CallExpression? && !(site.callee.ReferenceCallee? && callable.Some? && callable.value.isFunction)
            ==> r == 0
  {
    match site
    case CallExpression(callee) =>
      if callee.ReferenceCallee? && callable.Some? && callable.value.isFunction then
        ImplicitCountAt(callee.reference, callable.value)
      else 0
    case OtherCallSite => 1
  }

  /** filterExplicitParameters: the parameters without the implicit ones in front. */
  function FilterExplicitParameters(parameters: seq<Param>, callable: Option<Callable>, site: CallSite)
    : (r: seq<Param>)
    ensures |parameters| - 2 <= |r| <= |parameters| && r == parameters[|parameters| - |r|..]
    ensures site.OtherCallSite? ==> r == if parameters == [] then [] else parameters[1..]
    ensures site.CallExpression? && !(site.callee.ReferenceCallee? && callable.Some? && callable.value.isFunction)
            ==> r == parameters
  {
    var offset := ExplicitOffset(callable, site);
    parameters[if offset < |parameters| then offset else |parameters|..]
  }

  /** PyArgumentsMapping: the implicit parameters and the binding of the explicit ones. */
  datatype ArgumentsMapping = ArgumentsMapping(implicitParameters: seq<Param>, results: MappingResults)

  /**
   * mapArguments: the first `implicitOffset` parameters (or all of them, if there
   * are fewer) are implicit, and the arguments are bound to the rest. When the
   * callable's parameters are unknown, nothing is mapped.
   */
  method MapArguments(arguments: seq<Expr>, parameters: Option<seq<Param>>, implicitOffset: nat,
                      olderThan35: bool) returns (m: ArgumentsMapping)
    ensures parameters.None? ==> m == ArgumentsMapping([], MappingResults([], [], [], [], [], []))
    ensures parameters.Some? ==>
      var ps := parameters.value;
      var k := |m.implicitParameters|;
      k == (if implicitOffset < |ps| then implicitOffset else |ps|) &&
      m.implicitParameters == ps[..k] &&
      m.results == Analyze(arguments, ps[k..], olderThan35)
  {
    if parameters.None? {
      return ArgumentsMapping([], MappingResults([], [], [], [], [], []));
    }
    var ps := parameters.value;
    var safeImplicitOffset := if implicitOffset < |ps| then implicitOffset else |ps|;
    var explicitParameters := ps[safeImplicitOffset..];
    var implicitParameters := ps[..safeImplicitOffset];
    var mappingResults := AnalyzeArguments(arguments, explicitParameters, olderThan35);
    m := ArgumentsMapping(implicitParameters, mappingResults);
  }
}
