/**
 * The call-site arguments and the declared parameters the binding engine works on.
 * Expressions and parameters carry an id standing for PSI identity; everything else
 * the engine asks of a PSI element (its syntactic kind, its name, whether it has a
 * default, whether its annotated type is a ParamSpec or Concatenate) is a field.
 */
module CallModel {
  import opened Options

  datatype Expr = Expr(id: nat, kind: ExprKind)

  datatype ExprKind =
    | Plain                                   // any other expression
    | SequenceLiteral(elements: seq<Expr>)    // a tuple or list display, parentheses flattened
    | Keyword(keyword: Option<string>)        // name=value
    | Star(literal: Option<seq<Expr>>)        // *x; the elements when x is a tuple or list display
    | DoubleStar                              // **x

  /** `*args`, `**kwargs` or an ordinary named parameter. */
  datatype Role = Normal | VarPositional | VarKeyword

  datatype Param = Param(id: nat, kind: ParamKind)

  datatype ParamKind =
    | Named(name: Option<string>, role: Role, hasDefault: bool, isParamSpec: bool)
    | Slash                                           // `/` (positional-only marker)
    | BareStar                                        // `*` (keyword-only marker)
    | Tuple(components: seq<Param>, hasDefault: bool) // a Python 2 tuple parameter `(a, b)`
    | Other(hasDefault: bool)

  predicate HasDefault(p: Param)
  {
    match p.kind
    case Named(_, _, d, _) => d
    case Tuple(_, d) => d
    case Other(d) => d
    case _ => false
  }

  predicate IsPositionalContainer(p: Param)
  {
    p.kind.Named? && p.kind.role == VarPositional
  }

  predicate IsKeywordContainer(p: Param)
  {
    p.kind.Named? && p.kind.role == VarKeyword
  }

  predicate IsKeywordArgument(e: Expr) { e.kind.Keyword? }

  predicate IsVariadicKeywordArgument(e: Expr) { e.kind.DoubleStar? }

  /** An argument that is neither `name=value`, `*x` nor `**x`. */
  predicate IsPositionalArgument(e: Expr) { e.kind.Plain? || e.kind.SequenceLiteral? }

  /** A keyword argument whose keyword is present and equals `name`. */
  predicate KeywordNamed(e: Expr, name: Option<string>)
  {
    e.kind.Keyword? && e.kind.keyword.Some? && e.kind.keyword == name
  }

  /** `p` is one of the components of the tuple parameter `t`, at any depth. */
  predicate IsNestedComponent(p: Param, t: Param)
    decreases t
  {
    t.kind.Tuple? &&
    exists i :: 0 <= i < |t.kind.components| &&
      (t.kind.components[i] == p || IsNestedComponent(p, t.kind.components[i]))
  }
}
