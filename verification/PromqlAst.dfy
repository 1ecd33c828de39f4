/** Tokens and syntax trees of the PromQL subset (pkg/promql/lex.go, pkg/promql/parser.go).
    Token positions only feed error messages and are dropped; number parsing is a library
    call and is taken as a parameter. */
module PromqlAst {
  import opened Numbers
  import opened Optional

  datatype Kind =
    | Ident | Number | Str
    | LBrace | RBrace | LParen | RParen | LBracket | RBracket | Comma
    | EqSign | Neq | RegexMat | RegexNoMat
    | Plus | Minus | Star | Slash
    | By | Without | Duration
    | Gt | Lt | Gte | Lte | EqCmp

  datatype Token = Token(kind: Kind, val: string)

  datatype MatcherOp = MatchEq | MatchNeq | MatchRegex | MatchNotRegex

  datatype Matcher = Matcher(name: string, op: MatcherOp, val: string)

  datatype Selector = Selector(metric: string, matches: seq<Matcher>)

  datatype Node =
    | Vector(v: Selector)
    | Range(v: Selector, dur: int, durText: string)
    | Call(name: string, args: seq<Node>)
    | Aggr(op: string, arg: Node, byLabels: seq<string>, withoutLabels: seq<string>, phi: Option<real>)
    | Num(value: real)
    | Bin(binop: string, left: Node, right: Node)

  /** strconv.ParseFloat. */
  type ParseFloat = string -> Option<real>

  predicate IsAggrName(s: string) {
    s in {"sum", "avg", "min", "max", "count", "quantile"}
  }

  // ---------- durations ----------

  const NANOS_PER_MS: int := 1_000_000

  function UnitNanos(unit: string): Option<int> {
    if unit == "ms" then Some(NANOS_PER_MS)
    else if unit == "s" then Some(1000 * NANOS_PER_MS)
    else if unit == "m" then Some(60 * 1000 * NANOS_PER_MS)
    else if unit == "h" then Some(60 * 60 * 1000 * NANOS_PER_MS)
    else if unit == "d" then Some(24 * 60 * 60 * 1000 * NANOS_PER_MS)
    else if unit == "w" then Some(7 * 24 * 60 * 60 * 1000 * NANOS_PER_MS)
    else if unit == "y" then Some(365 * 24 * 60 * 60 * 1000 * NANOS_PER_MS)
    else None
  }

  function ParseDuration(s: string, pf: ParseFloat): Option<int> {
    if |s| < 2 then None
    else
      var unit := if s[|s| - 2..] == "ms" then "ms" else s[|s| - 1..];
      var n := pf(s[..|s| - |unit|]);
      var nanos := UnitNanos(unit);
      if n.None? || nanos.None? then None else Some(Truncate(nanos.value as real * n.value))
  }
}
