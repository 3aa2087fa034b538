# Call-argument binding in PyCallExpressionHelper

This project models the part of the plugin's `PyCallExpressionHelper` that decides,
for a Python call, which call-site argument fills which declared parameter. The
plugin approximates the binding rules of section 6.3.4 ("Calls") of The Python
Language Reference. It handles positional-only `/` (PEP 570), keyword-only bare `*`
(PEP 3102), positionals after `*x` (PEP 448), `ParamSpec`/`Concatenate` capture
(PEP 612) and Python 2 tuple parameters (removed by PEP 3113). The model follows the
plugin, including the two places where it departs from Python (listed under
"## Left out").

- `analyzeArguments` walks the parameter list once, left to right. It draws on
  four pools of arguments: positional, keyword, `*x` and `**x`. It produces an
  insertion-ordered argument-to-parameter map, the unmapped parameters, the
  unmapped arguments, the parameters satisfied through `*x`/`**x`, and the
  tuple-parameter map. `ArgumentMapping` specifies the walk as a fold
  (`Step`, `Run`, `Finish`, `Analyze`) over a `State` record holding the
  Kotlin function's local variables. `AnalyzeArguments` is the loop itself,
  proved to compute `Analyze`. `MappingProperties` proves what the binding
  promises.
- Its helpers live in `ArgumentPools` (pool construction, `removeKeywordArgument`,
  `next`) and `TupleParameters` (`mapComponentsOfTupleParameter`).
- `ImplicitArguments` covers:
  - how many leading parameters a call fills implicitly (`self`/`cls`),
    through both versions of `getImplicitArgumentCount`;
  - `filterExplicitParameters`;
  - the clamped implicit/explicit split of `mapArguments`.
- `Overloads` covers the `@overload` filters (PEP 484) and `preferInitOverNew`.
- `MappedContainers` covers the five lookups on a finished mapping.
- `LinkedMaps` models `java.util.LinkedHashMap` as a sequence of entries. A put
  on a present key replaces its value in place. `Sequences` holds the generic
  list facts: filtering, subsequences, and grouping by key in first-seen order.

Queries to the IDE become fields of the model's datatypes:
- whether a parameter is typed with a ParamSpec or Concatenate (`isParamSpecOrConcatenate`);
- `PyiUtil.isOverload` / `isInsideStub`;
- the scope owner;
- whether the call is by instance or by class;
- whether the file's language level is older than Python 3.5;
- whether an overload's generic call unifies.

Arguments are distinct ids with a kind:
- positional;
- keyword with a name;
- `*` with the elements of a literal display when there is one;
- `**`.

## Model

| member | source | states |
|---|---|---|
| ArgumentMapping.AnalyzeArguments | src/main/kotlin/com/y4kstudios/pycharmtypingimp/jetbrains/python/psi/impl/PyCallExpressionHelper.kt:1112-1261 | the loop over the parameters, with the pools and flags as local state, computes exactly the fold `Analyze` |
| ArgumentMapping.MapToVarPositional | src/main/kotlin/com/y4kstudios/pycharmtypingimp/jetbrains/python/psi/impl/PyCallExpressionHelper.kt:1143-1153 | the `*args` branch of the loop body computes `BindVarPositional` |
| ArgumentMapping.MapToVarKeyword | src/main/kotlin/com/y4kstudios/pycharmtypingimp/jetbrains/python/psi/impl/PyCallExpressionHelper.kt:1154-1162 | the `**kwargs` branch computes `BindVarKeyword` |
| ArgumentMapping.MapKeywordOnly | src/main/kotlin/com/y4kstudios/pycharmtypingimp/jetbrains/python/psi/impl/PyCallExpressionHelper.kt:1163-1175 | the branch after a bare `*` computes `BindKeywordOnly` |
| ArgumentMapping.MapToParamSpec | src/main/kotlin/com/y4kstudios/pycharmtypingimp/jetbrains/python/psi/impl/PyCallExpressionHelper.kt:1176-1183 | the ParamSpec/Concatenate branch computes `BindParamSpec` |
| ArgumentMapping.MapOrdinary | src/main/kotlin/com/y4kstudios/pycharmtypingimp/jetbrains/python/psi/impl/PyCallExpressionHelper.kt:1184-1217 | an ordinary parameter binds positional-only while a `/` is ahead, by keyword once the positional pool is empty, and otherwise to the next positional argument |
| ArgumentMapping.MapToTupleParameter | src/main/kotlin/com/y4kstudios/pycharmtypingimp/jetbrains/python/psi/impl/PyCallExpressionHelper.kt:1218-1233 | the tuple-parameter branch computes `BindTuple` |
| MappingProperties.OrdinaryParameterBinding | src/main/kotlin/com/y4kstudios/pycharmtypingimp/jetbrains/python/psi/impl/PyCallExpressionHelper.kt:1184-1217 | an ordinary parameter before a bare `*` takes the head of the positional pool and changes no other binding; it falls back to the first keyword argument of its name only when that pool is empty and no `/` is ahead; that argument leaves the keyword pool and no other binding changes |
| MappingProperties.OrdinaryKeywordFallback | src/main/kotlin/com/y4kstudios/pycharmtypingimp/jetbrains/python/psi/impl/PyCallExpressionHelper.kt:1193-1207 | with no positional argument left, no `/` ahead and no keyword argument of its name, an ordinary parameter is reported unmapped when there is no `*x`, no `**x` and no default; otherwise it is recorded as satisfied through each of `*x` and `**x` that is present and the variadic flag is set |
| MappingProperties.TakesHead | src/main/kotlin/com/y4kstudios/pycharmtypingimp/jetbrains/python/psi/impl/PyCallExpressionHelper.kt:1185-1188 | with positional arguments left, an ordinary parameter binds the first and leaves the keyword pool alone |
| MappingProperties.PositionalsBindInOrder | src/main/kotlin/com/y4kstudios/pycharmtypingimp/jetbrains/python/psi/impl/PyCallExpressionHelper.kt:1184-1217 | ordinary parameters before a bare `*` take the positional arguments in call order: the i-th parameter gets the i-th argument, and the keyword pool is untouched |
| MappingProperties.KeywordOnlyBinding | src/main/kotlin/com/y4kstudios/pycharmtypingimp/jetbrains/python/psi/impl/PyCallExpressionHelper.kt:1163-1175 | after a bare `*`, a parameter binds only the first keyword argument with its name; that argument leaves the pool and nothing else changes; without one the map and pool are unchanged |
| MappingProperties.KeywordOnlyFallback | src/main/kotlin/com/y4kstudios/pycharmtypingimp/jetbrains/python/psi/impl/PyCallExpressionHelper.kt:1163-1175 | with no keyword argument of its name, a keyword-only parameter is reported unmapped when there is no `**x` and no default, and is recorded as satisfied through `**x` when there is one |
| MappingProperties.VarPositionalTakesRest | src/main/kotlin/com/y4kstudios/pycharmtypingimp/jetbrains/python/psi/impl/PyCallExpressionHelper.kt:1143-1153 | `*args` binds every positional argument left, plus the `*x` argument when it is the only one; both pools end empty and no other binding changes |
| MappingProperties.VarKeywordTakesAll | src/main/kotlin/com/y4kstudios/pycharmtypingimp/jetbrains/python/psi/impl/PyCallExpressionHelper.kt:1154-1162 | `**kwargs` binds every keyword and `**x` argument left; both pools end empty and no other binding changes |
| MappingProperties.ParamSpecTakesEverything | src/main/kotlin/com/y4kstudios/pycharmtypingimp/jetbrains/python/psi/impl/PyCallExpressionHelper.kt:1176-1183 | a ParamSpec/Concatenate parameter binds every argument of the call and empties all four pools |
| MappingProperties.PoolsOnlyShrink | src/main/kotlin/com/y4kstudios/pycharmtypingimp/jetbrains/python/psi/impl/PyCallExpressionHelper.kt:1139-1243 | over the whole walk, the positional pool only loses arguments from its front, the keyword pool only loses arguments, the `*x` and `**x` pools stay or are emptied, and the unmapped arguments only grow at the end |
| MappingProperties.StepUnmappedParams | src/main/kotlin/com/y4kstudios/pycharmtypingimp/jetbrains/python/psi/impl/PyCallExpressionHelper.kt:1139-1243 | one iteration only appends to the unmapped parameters: the parameter itself when it has no default, or components of its tuple |
| MappingProperties.UnmappedParametersHaveNoDefault | src/main/kotlin/com/y4kstudios/pycharmtypingimp/jetbrains/python/psi/impl/PyCallExpressionHelper.kt:1169-1243 | every reported unmapped parameter is a parameter without a default or a component of a tuple parameter |
| MappingProperties.NoArgumentLost | src/main/kotlin/com/y4kstudios/pycharmtypingimp/jetbrains/python/psi/impl/PyCallExpressionHelper.kt:1112-1261 | every keyword argument, and every positional argument not cut off by an earlier keyword or `**x` argument, ends bound, tuple-bound or unmapped |
| MappingProperties.LeftoverArguments | src/main/kotlin/com/y4kstudios/pycharmtypingimp/jetbrains/python/psi/impl/PyCallExpressionHelper.kt:1244-1252 | the unmapped arguments are, by position, the tuple leftovers, then the positional pool, then the keyword pool, then the `*x` and the `**x` arguments; those last two are present exactly when no parameter was satisfied through them |
| MappingProperties.AnalyzedKeysDistinct | src/main/kotlin/com/y4kstudios/pycharmtypingimp/jetbrains/python/psi/impl/PyCallExpressionHelper.kt:1122-1131 | the mapped parameters and the mapped tuple parameters of a finished analysis hold each argument at most once, as the LinkedHashMaps they stand for do |
| MappingProperties.TupleComponentsBound | src/main/kotlin/com/y4kstudios/pycharmtypingimp/jetbrains/python/psi/impl/PyCallExpressionHelper.kt:1218-1226 | a flat tuple parameter given a display of distinct elements puts the display into the tuple map and binds its i-th name to the i-th element in the analysis's map |
| MappingProperties.PositionalOnlyIgnoresStar | src/main/kotlin/com/y4kstudios/pycharmtypingimp/jetbrains/python/psi/impl/PyCallExpressionHelper.kt:1185-1191 | while a `/` is ahead, an ordinary parameter with no positional argument left and no default is reported unmapped, whatever the `*x` pool holds, and nothing is recorded as satisfied through `*x` |
| MappingProperties.PositionalOnlyStarExample | src/main/kotlin/com/y4kstudios/pycharmtypingimp/jetbrains/python/psi/impl/PyCallExpressionHelper.kt:1117-1191 | `def f(a, /)` called as `f(*xs)` reports `a` as unmapped and `*xs` as a leftover argument, and binds nothing |
| MappingProperties.ParamSpecRebindsExample | src/main/kotlin/com/y4kstudios/pycharmtypingimp/jetbrains/python/psi/impl/PyCallExpressionHelper.kt:1176-1188 | with an ordinary parameter followed by a ParamSpec-typed parameter and one argument `x`, `x` is rebound from the ordinary parameter to the ParamSpec one, which ends holding every argument |
| MappingProperties.LeftoverPositionalsAreTheLast | src/main/kotlin/com/y4kstudios/pycharmtypingimp/jetbrains/python/psi/impl/PyCallExpressionHelper.kt:1244-1252 | the positional arguments reported unmapped are the last ones of the positional pool |
| ArgumentPools.FilterKeywordArguments | src/main/kotlin/com/y4kstudios/pycharmtypingimp/jetbrains/python/psi/impl/PyCallExpressionHelper.kt:1461-1469 | the loop keeps exactly the keyword arguments, in order |
| ArgumentPools.FilterVariadicKeywordArguments | src/main/kotlin/com/y4kstudios/pycharmtypingimp/jetbrains/python/psi/impl/PyCallExpressionHelper.kt:1520-1528 | the loop keeps exactly the `**x` arguments, in order |
| ArgumentPools.FilterPositionalAndVariadicArguments | src/main/kotlin/com/y4kstudios/pycharmtypingimp/jetbrains/python/psi/impl/PyCallExpressionHelper.kt:1471-1518 | the loop computes the positional pool, the spliced components and the opaque `*x` arguments of `SplitPositional` |
| ArgumentPools.PositionalPoolMembers | src/main/kotlin/com/y4kstudios/pycharmtypingimp/jetbrains/python/psi/impl/PyCallExpressionHelper.kt:1478-1511 | an argument is in the positional pool iff it is a plain positional argument not preceded by a keyword or `**x` argument (or, before Python 3.5, a `*x` argument), or an element of a `*[...]` display |
| ArgumentPools.VariadicPoolMembers | src/main/kotlin/com/y4kstudios/pycharmtypingimp/jetbrains/python/psi/impl/PyCallExpressionHelper.kt:1479-1497 | the `*x` pool holds exactly the `*` arguments that are not a literal display |
| ArgumentPools.FirstNamed | src/main/kotlin/com/y4kstudios/pycharmtypingimp/jetbrains/python/psi/impl/PyCallExpressionHelper.kt:1448-1454 | the index found is the first keyword argument with the name, or the pool's length when there is none |
| ArgumentPools.RemoveKeywordArgument | src/main/kotlin/com/y4kstudios/pycharmtypingimp/jetbrains/python/psi/impl/PyCallExpressionHelper.kt:1443-1459 | the loop finds the first keyword argument with the name and removes just it |
| ArgumentPools.RemoveKeywordMultiset | src/main/kotlin/com/y4kstudios/pycharmtypingimp/jetbrains/python/psi/impl/PyCallExpressionHelper.kt:1443-1459 | the argument found plus the rest is the pool as a multiset; with none found the pool is unchanged |
| ArgumentPools.RemoveKeywordKeeps | src/main/kotlin/com/y4kstudios/pycharmtypingimp/jetbrains/python/psi/impl/PyCallExpressionHelper.kt:1443-1459 | every argument of the pool is either still in it or is the one removed |
| ArgumentPools.RemoveKeywordShrinks | src/main/kotlin/com/y4kstudios/pycharmtypingimp/jetbrains/python/psi/impl/PyCallExpressionHelper.kt:1443-1459 | the rest holds only arguments of the pool, one fewer when one was found |
| ArgumentPools.Next | src/main/kotlin/com/y4kstudios/pycharmtypingimp/jetbrains/python/psi/impl/PyCallExpressionHelper.kt:1538-1540 | nothing exactly for an empty list; otherwise the head, with the head followed by the rest giving back the list |
| TupleParameters.MapComponentsOfTupleParameter | src/main/kotlin/com/y4kstudios/pycharmtypingimp/jetbrains/python/psi/impl/PyCallExpressionHelper.kt:1393-1441 | the recursive matching of a tuple parameter against a literal display computes `MapTupleParameter` |
| TupleParameters.UnmappedAreComponents | src/main/kotlin/com/y4kstudios/pycharmtypingimp/jetbrains/python/psi/impl/PyCallExpressionHelper.kt:1393-1441 | every parameter a tuple match reports unmapped is a component, at some depth, of the tuple parameter |
| TupleParameters.FlatTupleBinding | src/main/kotlin/com/y4kstudios/pycharmtypingimp/jetbrains/python/psi/impl/PyCallExpressionHelper.kt:1403-1438 | for a flat tuple of names against a display, the i-th name binds the i-th element; the extra names are unmapped parameters, and the extra elements are unmapped arguments |
| LinkedMaps.Put | src/main/kotlin/com/y4kstudios/pycharmtypingimp/jetbrains/python/psi/impl/PyCallExpressionHelper.kt:1150 | a put makes the key look up the value and leaves other keys alone; a new key goes last, an existing key keeps its place |
| LinkedMaps.PutKeepsDistinct | src/main/kotlin/com/y4kstudios/pycharmtypingimp/jetbrains/python/psi/impl/PyCallExpressionHelper.kt:1150 | a put into a map without repeated keys repeats none |
| LinkedMaps.PutEachKeepsDistinct | src/main/kotlin/com/y4kstudios/pycharmtypingimp/jetbrains/python/psi/impl/PyCallExpressionHelper.kt:1144-1148 | putting each of a list of keys repeats none |
| LinkedMaps.PutEachInOrder | src/main/kotlin/com/y4kstudios/pycharmtypingimp/jetbrains/python/psi/impl/PyCallExpressionHelper.kt:1144-1148 | the loop putting each argument in turn makes every one of them look up the parameter and leaves other keys alone |
| LinkedMaps.PutAll | src/main/kotlin/com/y4kstudios/pycharmtypingimp/jetbrains/python/psi/impl/PyCallExpressionHelper.kt:1226 | every key of the added map is present afterwards, and other keys are unchanged |
| LinkedMaps.PutAllKeepsDistinct | src/main/kotlin/com/y4kstudios/pycharmtypingimp/jetbrains/python/psi/impl/PyCallExpressionHelper.kt:1226 | `putAll` into a map without repeated keys repeats none |
| LinkedMaps.PutAllLookup | src/main/kotlin/com/y4kstudios/pycharmtypingimp/jetbrains/python/psi/impl/PyCallExpressionHelper.kt:1226 | when the added map has no repeated key, each of its keys looks up afterwards the value it has there |
| ImplicitArguments.ImplicitArgumentCount | src/main/kotlin/com/y4kstudios/pycharmtypingimp/jetbrains/python/psi/impl/PyCallExpressionHelper.kt:505-540 | the imperative count computes `ImplicitCount`, which is at most 2 (2 only for a class method in a constructor call not by instance). `__new__` counts 1 exactly in a constructor call. `__init__` called neither by instance nor by class counts 1. A first parameter `*args`/`**kwargs` is not counted as `self`. A staticmethod by instance counts 0 |
| ImplicitArguments.ImplicitCountAt | src/main/kotlin/com/y4kstudios/pycharmtypingimp/jetbrains/python/psi/impl/PyCallExpressionHelper.kt:471-503 | for a call through a reference, the count is at most 2; it is 2 only for a class-method `__init__` reached by class; a call by instance of a non-static method other than `__new__` whose first parameter is ordinary counts at least one |
| ImplicitArguments.NewTakesClsOnlyInConstructorCalls | src/main/kotlin/com/y4kstudios/pycharmtypingimp/jetbrains/python/psi/impl/PyCallExpressionHelper.kt:480-482 | `__new__` counts `cls` implicit exactly when the call does not name `__init__`/`__new__` through a qualifier |
| ImplicitArguments.ExplicitOffset | src/main/kotlin/com/y4kstudios/pycharmtypingimp/jetbrains/python/psi/impl/PyCallExpressionHelper.kt:1548-1561 | the offset is 1 for a site that is not a call expression, 0 unless the callee is a reference to a function, and never above 2 |
| ImplicitArguments.FilterExplicitParameters | src/main/kotlin/com/y4kstudios/pycharmtypingimp/jetbrains/python/psi/impl/PyCallExpressionHelper.kt:1542-1563 | the result is a suffix of the parameters missing at most two; it drops exactly the first for a non-call site, and nothing unless the callee is a reference to a function |
| ImplicitArguments.MapArguments | src/main/kotlin/com/y4kstudios/pycharmtypingimp/jetbrains/python/psi/impl/PyCallExpressionHelper.kt:867-892 | unknown parameters give the empty mapping; otherwise the first min(offset, count) parameters are implicit and the arguments are bound to the rest |
| Overloads.ContainsOverloadsAndImplementations | src/main/kotlin/com/y4kstudios/pycharmtypingimp/jetbrains/python/psi/impl/PyCallExpressionHelper.kt:1313-1328 | true exactly when some candidate maps to an overload and some to an implementation |
| Overloads.TakeOverloadsOtherwiseImplementations | src/main/kotlin/com/y4kstudios/pycharmtypingimp/jetbrains/python/psi/impl/PyCallExpressionHelper.kt:1330-1346 | the result is a subsequence; unchanged unless overloads and implementations mix; in that case it is non-empty and keeps exactly the overloads and stub declarations |
| Overloads.ForEveryScopeTakeOverloadsOtherwiseImplementations | src/main/kotlin/com/y4kstudios/pycharmtypingimp/jetbrains/python/psi/impl/PyCallExpressionHelper.kt:1284-1311 | the list comes back unchanged unless it mixes overloads and implementations |
| Overloads.ForEveryScopeMembers | src/main/kotlin/com/y4kstudios/pycharmtypingimp/jetbrains/python/psi/impl/PyCallExpressionHelper.kt:1284-1311 | a candidate survives iff it is in the list and, when the list and its own scope group both mix, it is an overload or a stub declaration |
| Overloads.ForEveryScopeKeepsOne | src/main/kotlin/com/y4kstudios/pycharmtypingimp/jetbrains/python/psi/impl/PyCallExpressionHelper.kt:1284-1311 | a non-empty list never comes out empty |
| Overloads.DropNotMatchedOverloadsOrLeaveAsIs | src/main/kotlin/com/y4kstudios/pycharmtypingimp/jetbrains/python/psi/impl/PyCallExpressionHelper.kt:1348-1364 | the result is a subsequence and is non-empty for a non-empty list. If some candidate matches, it keeps exactly the matching ones. If none matches, the list comes back unchanged. Non-overloads always stay |
| Overloads.MatchedOverloadBindsArguments | src/main/kotlin/com/y4kstudios/pycharmtypingimp/jetbrains/python/psi/impl/PyCallExpressionHelper.kt:1366-1391 | an overload that `notMatchedOverload` does not rule out, when its explicit parameters were bound by the analysis, binds every keyword argument and every positional argument before the first keyword or `**x` argument, leaves no parameter unbound, and unifies |
| Overloads.PreferInitOverNew | src/main/kotlin/com/y4kstudios/pycharmtypingimp/jetbrains/python/psi/impl/PyCallExpressionHelper.kt:1063-1068 | with an `__init__` present, exactly the `__init__` functions in order, each as often as in the input (the filter on the name `__init__`); otherwise every function, as a permutation |
| Overloads.OnlyNewKeepsOrder | src/main/kotlin/com/y4kstudios/pycharmtypingimp/jetbrains/python/psi/impl/PyCallExpressionHelper.kt:1063-1068 | a list of `__new__` functions alone comes back as it is |
| Sequences.FirstSeenOrder | src/main/kotlin/com/y4kstudios/pycharmtypingimp/jetbrains/python/psi/impl/PyCallExpressionHelper.kt:1293-1301 | the scope groups come in the order their keys first occur, each key once |
| Sequences.RegroupIsPermutation | src/main/kotlin/com/y4kstudios/pycharmtypingimp/jetbrains/python/psi/impl/PyCallExpressionHelper.kt:1064-1067 | regrouping by name keeps every function, as a multiset |
| MappedContainers.ArgumentsMappedToPositionalContainer | src/main/kotlin/com/y4kstudios/pycharmtypingimp/jetbrains/python/psi/impl/PyCallExpressionHelper.kt:970-974 | exactly the arguments mapped to `*args`, in the mapping's order |
| MappedContainers.ArgumentsMappedToKeywordContainer | src/main/kotlin/com/y4kstudios/pycharmtypingimp/jetbrains/python/psi/impl/PyCallExpressionHelper.kt:976-980 | exactly the arguments mapped to `**kwargs`, in the mapping's order |
| MappedContainers.RegularMappedParameters | src/main/kotlin/com/y4kstudios/pycharmtypingimp/jetbrains/python/psi/impl/PyCallExpressionHelper.kt:982-990 | the loop copies the regular entries one by one into an empty map |
| MappedContainers.RegularEntriesLookup | src/main/kotlin/com/y4kstudios/pycharmtypingimp/jetbrains/python/psi/impl/PyCallExpressionHelper.kt:982-990 | each argument looks up its parameter in the regular mapping exactly when that parameter is neither `*args` nor `**kwargs` |
| MappedContainers.RegularEntriesOrder | src/main/kotlin/com/y4kstudios/pycharmtypingimp/jetbrains/python/psi/impl/PyCallExpressionHelper.kt:982-990 | the regular mapping keeps the mapping's order |
| MappedContainers.MappingPartition | src/main/kotlin/com/y4kstudios/pycharmtypingimp/jetbrains/python/psi/impl/PyCallExpressionHelper.kt:970-990 | every argument of a mapping is in exactly one of the `*args` list, the `**kwargs` list and the regular mapping |
| MappedContainers.AnalyzedMappingPartition | src/main/kotlin/com/y4kstudios/pycharmtypingimp/jetbrains/python/psi/impl/PyCallExpressionHelper.kt:970-990 | on the mapping an analysis builds, each bound argument is in exactly one of the `*args` list, the `**kwargs` list and the regular mapping; the regular mapping keeps it exactly when its parameter is neither `*args` nor `**kwargs`, and keeps the mapping's order |
| MappedContainers.MappedPositionalContainer | src/main/kotlin/com/y4kstudios/pycharmtypingimp/jetbrains/python/psi/impl/PyCallExpressionHelper.kt:992-996 | none iff no entry maps to `*args`; otherwise a `*args` parameter of the mapping |
| MappedContainers.MappedKeywordContainer | src/main/kotlin/com/y4kstudios/pycharmtypingimp/jetbrains/python/psi/impl/PyCallExpressionHelper.kt:998-1002 | none iff no entry maps to `**kwargs`; otherwise a `**kwargs` parameter of the mapping |
| MappedContainers.FindValue | src/main/kotlin/com/y4kstudios/pycharmtypingimp/jetbrains/python/psi/impl/PyCallExpressionHelper.kt:993-995 | the first value that satisfies the test, or none when no value does |

## Left out

- Host resolution and type queries are not modelled. They answer through the IDE's PSI, resolver and `TypeEvalContext`, whose code is not part of this model. This covers resolving the callee, deciding by instance or by class, and the call types. Their outcomes are inputs: `Reference.isByInstance`, `Reference.isByClass`, `Param`'s `isParamSpec`, and `Target`'s `isOverload`, `insideStub` and `scope`.
- `notMatchedOverload` delegates to `PyTypeChecker.unifyGenericCallWithParamSpecs`. The unification result is the `unifies` field, and the receiver/`self` pairing that feeds it is not modelled. The rest of its test (unmapped arguments or parameters of the overload's full mapping) is modelled.
- `PyUtil` is not part of this model. `isInitOrNewMethod`, `isNewMethod` and `isInitMethod` are taken to test the method's name inside a class.
- The language level is one boolean per call ("older than Python 3.5"), not per argument.
- Caching through `PyUtil.getParameterizedCachedValue` is not modelled, and neither are the other files of the plugin.
- The public `mapArguments` overloads, `callSite.getArguments` and the `PyArgumentsMapping` call-site/callable fields are not modelled. Only the private implicit/explicit split is.
- TupleParameters.MapComponentsOfTupleParameter: null elements of a display are not modelled, because the model's displays have none. Parentheses are taken as already flattened.
- ArgumentMapping.AnalyzeArguments: null entries in the positional pool are not modelled. A `*[...]` display yields real elements.
- Python binds a positional-only parameter from a `*x` argument; the plugin does not. While a `/` is ahead, an ordinary parameter with no positional argument left never looks at the `*x` pool. So `def f(a, /)` called as `f(*xs)` reports `a` unmapped and `*xs` left over. The model keeps the plugin's behaviour, shown by MappingProperties.PositionalOnlyIgnoresStar and MappingProperties.PositionalOnlyStarExample.
- A parameter typed with a ParamSpec or a `Concatenate` takes every argument of the call, so an argument already bound to an earlier ordinary parameter is rebound to it (MappingProperties.ParamSpecTakesEverything, MappingProperties.ParamSpecRebindsExample). `isParamSpecOrConcatenate` tests the type of a single parameter, which suggests the host passes a `Concatenate[int, P]` as one parameter; the rebinding then shows only for a signature with ordinary parameters ahead of the ParamSpec-typed one. How the host builds parameter lists is not part of this model.
- Overloads.PreferInitOverNew: without an `__init__`, the Kotlin code returns the `MultiMap` groups in hash order. The model regroups by name in first-seen order and promises only a permutation.
- Overloads.ForEveryScopeTakeOverloadsOtherwiseImplementations: the scope owner is an abstract number, not a PSI element.
