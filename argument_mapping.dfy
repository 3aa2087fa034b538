/**
 * analyzeArguments: which call-site argument fills which declared parameter.
 *
 * The parameters are walked once, left to right. Between two parameters the walk
 * is described by a `State` (the Kotlin function's local variables); `Step` is one
 * iteration of its loop, `Run` the loop over a list of parameters, and `Finish` what
 * happens after it. `AnalyzeArguments` is the loop itself, proved to compute `Analyze`.
 */
module ArgumentMapping {
  import opened Options
  import opened LinkedMaps
  import opened CallModel
  import opened Sequences
  import opened ArgumentPools
  import opened TupleParameters

  /** ArgumentMappingResults. */
  datatype MappingResults = MappingResults(
    mappedParameters: LinkedMap<Expr, Param>,
    unmappedParameters: seq<Param>,
    unmappedArguments: seq<Expr>,
    parametersMappedToVariadicPositionalArguments: seq<Param>,
    parametersMappedToVariadicKeywordArguments: seq<Param>,
    mappedTupleParameters: LinkedMap<Expr, Param>)

  /** The flags, the results built so far, and the four argument pools. */
  datatype State = State(
    positionalOnlyMode: bool,
    seenSingleStar: bool,
    mappedVariadic: bool,                 // mappedVariadicArgumentsToParameters
    mapped: LinkedMap<Expr, Param>,
    unmappedParams: seq<Param>,
    unmappedArgs: seq<Expr>,
    viaVarPositional: seq<Param>,         // parametersMappedToVariadicPositionalArguments
    viaVarKeyword: seq<Param>,            // parametersMappedToVariadicKeywordArguments
    tupleMapped: LinkedMap<Expr, Param>,
    positional: seq<Expr>,                // allPositionalArguments
    keywords: seq<Expr>,                  // keywordArguments
    variadicPositional: seq<Expr>,        // variadicPositionalArguments (`*x`)
    variadicKeyword: seq<Expr>)           // variadicKeywordArguments (`**x`)

  /** What stays fixed during the walk: every argument, and the elements spliced from `*[...]`. */
  datatype Call = Call(arguments: seq<Expr>, components: seq<Expr>)

  predicate HasSlash(parameters: seq<Param>)
  {
    exists i :: 0 <= i < |parameters| && parameters[i].kind.Slash?
  }

  function CallOf(arguments: seq<Expr>, olderThan35: bool): Call
  {
    Call(arguments, SplitPositional(arguments, olderThan35).components)
  }

  function Start(arguments: seq<Expr>, parameters: seq<Param>, olderThan35: bool): State
  {
    var split := SplitPositional(arguments, olderThan35);
    State(HasSlash(parameters), false, false, [], [], [], [], [], [],
          split.positional,
          Filter(arguments, IsKeywordArgument),
          split.variadic,
          Filter(arguments, IsVariadicKeywordArgument))
  }

  function AddUnlessDefault(ps: seq<Param>, p: Param): seq<Param>
  {
    if HasDefault(p) then ps else ps + [p]
  }

  /** One iteration of the loop over the parameters. */
  function Step(c: Call, s: State, p: Param): State
  {
    match p.kind
    case Named(_, role, _, isParamSpec) =>
      if role == VarPositional then BindVarPositional(s, p)
      else if role == VarKeyword then BindVarKeyword(s, p)
      else if s.seenSingleStar then BindKeywordOnly(s, p)
      else if isParamSpec then BindParamSpec(c, s, p)
      else if s.positionalOnlyMode then BindPositionalOnly(s, p)
      else if s.positional == [] then BindByKeyword(s, p)
      else BindNextPositional(c, s, p)
    case Tuple(_, _) => BindTuple(s, p)
    case Slash => s.(positionalOnlyMode := false)
    case BareStar => s.(seenSingleStar := true)
    case Other(_) => s.(unmappedParams := AddUnlessDefault(s.unmappedParams, p))
  }

  /** `*args`: every positional argument left, and the `*x` argument when it is the only one. */
  function BindVarPositional(s: State, p: Param): State
  {
    var m := PutEach(s.mapped, s.positional, p);
    s.(mapped := if |s.variadicPositional| == 1 then Put(m, s.variadicPositional[0], p) else m,
       positional := [], variadicPositional := [])
  }

  /** `**kwargs`: every keyword argument left and every `**x` argument. */
  function BindVarKeyword(s: State, p: Param): State
  {
    s.(mapped := PutEach(PutEach(s.mapped, s.keywords, p), s.variadicKeyword, p),
       keywords := [], variadicKeyword := [])
  }

  /** A parameter after a bare `*`: only a keyword argument with its name. */
  function BindKeywordOnly(s: State, p: Param): State
    requires p.kind.Named?
  {
    var (found, rest) := RemoveKeyword(s.keywords, p.kind.name);
    if found.Some? then s.(mapped := Put(s.mapped, found.value, p), keywords := rest)
    else if s.variadicKeyword == [] then s.(unmappedParams := AddUnlessDefault(s.unmappedParams, p))
    else s.(viaVarKeyword := s.viaVarKeyword + [p], mappedVariadic := true)
  }

  /** A parameter typed with a ParamSpec or Concatenate captures every argument of the call. */
  function BindParamSpec(c: Call, s: State, p: Param): State
  {
    s.(mapped := PutEach(s.mapped, c.arguments, p),
       positional := [], keywords := [], variadicPositional := [], variadicKeyword := [])
  }

  /** An ordinary parameter while a `/` is still ahead: positional arguments only. */
  function BindPositionalOnly(s: State, p: Param): State
  {
    var (next, rest) := Next(s.positional);
    if next.Some? then s.(mapped := Put(s.mapped, next.value, p), positional := rest)
    else s.(unmappedParams := AddUnlessDefault(s.unmappedParams, p))
  }

  /** An ordinary parameter once the positional arguments are used up. */
  function BindByKeyword(s: State, p: Param): State
    requires p.kind.Named?
  {
    var (found, rest) := RemoveKeyword(s.keywords, p.kind.name);
    if found.Some? then s.(mapped := Put(s.mapped, found.value, p), keywords := rest)
    else if s.variadicPositional == [] && s.variadicKeyword == [] && !HasDefault(p) then
      s.(unmappedParams := s.unmappedParams + [p])
    else
      s.(viaVarPositional := if s.variadicPositional != [] then s.viaVarPositional + [p] else s.viaVarPositional,
         viaVarKeyword := if s.variadicKeyword != [] then s.viaVarKeyword + [p] else s.viaVarKeyword,
         mappedVariadic := true)
  }

  /** An ordinary parameter takes the next positional argument. */
  function BindNextPositional(c: Call, s: State, p: Param): State
    requires s.positional != []
  {
    var (next, rest) := Next(s.positional);
    s.(mapped := Put(s.mapped, next.value, p), positional := rest,
       viaVarPositional := if next.value in c.components then s.viaVarPositional + [p] else s.viaVarPositional)
  }

  /** A tuple parameter takes the next positional argument and matches its components against it. */
  function BindTuple(s: State, p: Param): State
    requires p.kind.Tuple?
  {
    var (next, rest) := Next(s.positional);
    if next.Some? then
      var t := MapTupleParameter(next.value, p);
      s.(tupleMapped := Put(s.tupleMapped, next.value, p), positional := rest,
         mapped := PutAll(s.mapped, t.mapped),
         unmappedParams := s.unmappedParams + t.unmappedParams,
         unmappedArgs := s.unmappedArgs + t.unmappedArgs)
    else if s.variadicPositional == [] then s.(unmappedParams := AddUnlessDefault(s.unmappedParams, p))
    else s.(mappedVariadic := true)
  }

  /** The loop over `ps`, from `s`. */
  function Run(c: Call, s: State, ps: seq<Param>): State
  {
    if ps == [] then s else Step(c, Run(c, s, ps[..|ps| - 1]), ps[|ps| - 1])
  }

  /** After the loop: what is left in the pools is unmapped. */
  function Finish(s: State): MappingResults
  {
    var star := if s.mappedVariadic then [] else s.variadicPositional;
    var doubleStar := if s.mappedVariadic then [] else s.variadicKeyword;
    MappingResults(s.mapped, s.unmappedParams,
                   s.unmappedArgs + s.positional + s.keywords + star + doubleStar,
                   s.viaVarPositional, s.viaVarKeyword, s.tupleMapped)
  }

  function Analyze(arguments: seq<Expr>, parameters: seq<Param>, olderThan35: bool): MappingResults
  {
    Finish(Run(CallOf(arguments, olderThan35), Start(arguments, parameters, olderThan35), parameters))
  }

  /**
   * analyzeArguments. The local variables of the Kotlin function are the fields of
   * `s`; each branch of its loop body is one of the methods below. Those methods
   * are the Kotlin blocks as statements, updating the locals in the order the
   * Kotlin code does (take from the pool, then put into the map or append to a
   * list), and each is proved to compute the `Bind` function that specifies the
   * branch. Keeping each branch in its own method keeps the proof of the loop to one
   * branch at a time.
   */
  method AnalyzeArguments(arguments: seq<Expr>, parameters: seq<Param>, olderThan35: bool)
    returns (r: MappingResults)
    ensures r == Analyze(arguments, parameters, olderThan35)
  {
    var positionalResults := FilterPositionalAndVariadicArguments(arguments, olderThan35);
    var keywordArguments := FilterKeywordArguments(arguments);
    var variadicKeywordArguments := FilterVariadicKeywordArguments(arguments);
    var call := Call(arguments, positionalResults.components);
    var s := State(HasSlash(parameters), false, false, [], [], [], [], [], [],
                   positionalResults.positional, keywordArguments,
                   positionalResults.variadic, variadicKeywordArguments);
    ghost var start := s;
    for i := 0 to |parameters|
      invariant s == Run(call, start, parameters[..i])
    {
      var parameter := parameters[i];
      assert parameters[..i + 1][..i] == parameters[..i];
      match parameter.kind {
        case Named(_, role, _, isParamSpec) =>
          if role == VarPositional {
            s := MapToVarPositional(s, parameter);
          } else if role == VarKeyword {
            s := MapToVarKeyword(s, parameter);
          } else if s.seenSingleStar {
            s := MapKeywordOnly(s, parameter);
          } else if isParamSpec {
            s := MapToParamSpec(call, s, parameter);
          } else {
            s := MapOrdinary(call, s, parameter);
          }
        case Tuple(_, _) =>
          s := MapToTupleParameter(s, parameter);
        case Slash =>
          s := s.(positionalOnlyMode := false);
        case BareStar =>
          s := s.(seenSingleStar := true);
        case Other(_) =>
          if !HasDefault(parameter) {
            s := s.(unmappedParams := s.unmappedParams + [parameter]);
          }
      }
    }
    assert parameters[..|parameters|] == parameters;
    if s.mappedVariadic {
      s := s.(variadicPositional := [], variadicKeyword := []);
    }
    var unmappedArguments := s.unmappedArgs;
    unmappedArguments := unmappedArguments + s.positional;
    unmappedArguments := unmappedArguments + s.keywords;
    unmappedArguments := unmappedArguments + s.variadicPositional;
    unmappedArguments := unmappedArguments + s.variadicKeyword;
    r := MappingResults(s.mapped, s.unmappedParams, unmappedArguments,
                        s.viaVarPositional, s.viaVarKeyword, s.tupleMapped);
  }

  method MapToVarPositional(s: State, parameter: Param) returns (t: State)
    ensures t == BindVarPositional(s, parameter)
  {
    var mappedParameters := PutEachInOrder(s.mapped, s.positional, parameter);
    if |s.variadicPositional| == 1 {
      mappedParameters := Put(mappedParameters, s.variadicPositional[0], parameter);
    }
    t := s.(mapped := mappedParameters, positional := [], variadicPositional := []);
  }

  method MapToVarKeyword(s: State, parameter: Param) returns (t: State)
    ensures t == BindVarKeyword(s, parameter)
  {
    var mappedParameters := PutEachInOrder(s.mapped, s.keywords, parameter);
    mappedParameters := PutEachInOrder(mappedParameters, s.variadicKeyword, parameter);
    t := s.(mapped := mappedParameters, keywords := [], variadicKeyword := []);
  }

  method MapKeywordOnly(s: State, parameter: Param) returns (t: State)
    requires parameter.kind.Named?
    ensures t == BindKeywordOnly(s, parameter)
  {
    var keywordArgument, keywordArguments := RemoveKeywordArgument(s.keywords, parameter.kind.name);
    t := s.(keywords := keywordArguments);
    if keywordArgument.Some? {
      t := t.(mapped := Put(t.mapped, keywordArgument.value, parameter));
    } else if t.variadicKeyword == [] {
      if !HasDefault(parameter) {
        t := t.(unmappedParams := t.unmappedParams + [parameter]);
      }
    } else {
      t := t.(viaVarKeyword := t.viaVarKeyword + [parameter], mappedVariadic := true);
    }
  }

  method MapToParamSpec(c: Call, s: State, parameter: Param) returns (t: State)
    ensures t == BindParamSpec(c, s, parameter)
  {
    var mappedParameters := PutEachInOrder(s.mapped, c.arguments, parameter);
    t := s.(mapped := mappedParameters, positional := [], keywords := [],
            variadicPositional := [], variadicKeyword := []);
  }

  /** An ordinary named parameter: the last `else` of the named-parameter branch. */
  method MapOrdinary(c: Call, s: State, parameter: Param) returns (t: State)
    requires parameter.kind.Named?
    ensures t == if s.positionalOnlyMode then BindPositionalOnly(s, parameter)
                 else if s.positional == [] then BindByKeyword(s, parameter)
                 else BindNextPositional(c, s, parameter)
  {
    t := s;
    if s.positionalOnlyMode {
      var (positionalArgument, rest) := Next(s.positional);
      t := t.(positional := rest);
      if positionalArgument.Some? {
        t := t.(mapped := Put(t.mapped, positionalArgument.value, parameter));
      } else if !HasDefault(parameter) {
        t := t.(unmappedParams := t.unmappedParams + [parameter]);
      }
    } else if s.positional == [] {
      var keywordArgument, keywordArguments := RemoveKeywordArgument(s.keywords, parameter.kind.name);
      t := t.(keywords := keywordArguments);
      if keywordArgument.Some? {
        t := t.(mapped := Put(t.mapped, keywordArgument.value, parameter));
      } else if s.variadicPositional == [] && s.variadicKeyword == [] && !HasDefault(parameter) {
        t := t.(unmappedParams := t.unmappedParams + [parameter]);
      } else {
        if s.variadicPositional != [] {
          t := t.(viaVarPositional := t.viaVarPositional + [parameter]);
        }
        if s.variadicKeyword != [] {
          t := t.(viaVarKeyword := t.viaVarKeyword + [parameter]);
        }
        t := t.(mappedVariadic := true);
      }
    } else {
      var (positionalArgument, rest) := Next(s.positional);
      t := t.(mapped := Put(t.mapped, positionalArgument.value, parameter), positional := rest);
      if positionalArgument.value in c.components {
        t := t.(viaVarPositional := t.viaVarPositional + [parameter]);
      }
    }
  }

  method MapToTupleParameter(s: State, parameter: Param) returns (t: State)
    requires parameter.kind.Tuple?
    ensures t == BindTuple(s, parameter)
  {
    var (positionalArgument, rest) := Next(s.positional);
    t := s.(positional := rest);
    if positionalArgument.Some? {
      t := t.(tupleMapped := Put(t.tupleMapped, positionalArgument.value, parameter));
      var tupleMappingResults := MapComponentsOfTupleParameter(positionalArgument.value, parameter);
      t := t.(mapped := PutAll(t.mapped, tupleMappingResults.mapped),
              unmappedParams := t.unmappedParams + tupleMappingResults.unmappedParams,
              unmappedArgs := t.unmappedArgs + tupleMappingResults.unmappedArgs);
    } else if s.variadicPositional == [] {
      if !HasDefault(parameter) {
        t := t.(unmappedParams := t.unmappedParams + [parameter]);
      }
    } else {
      t := t.(mappedVariadic := true);
    }
  }
}
