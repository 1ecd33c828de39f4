/** Lowering PromQL trees to nested ClickHouse SQL (pkg/promql/translate.go). The emitted SQL is a
    list of lexemes whose texts, put together, are the query; number formatting and regular
    expression compilation are parameters. */
module PromqlTranslate {
  import opened Optional
  import opened PromqlAst
  import opened SqlText

  datatype Arg = Text(text: string) | Time(at: int)

  datatype Params = Params(start: int, end: int, step: int)

  datatype World = World(fmtInt: int -> string, fmtFloat: real -> string, compiles: string -> bool)

  /** Formatted numbers never look like a parameter. */
  ghost predicate Sound(w: World) {
    (forall i :: '?' !in w.fmtInt(i)) && (forall r :: '?' !in w.fmtFloat(r))
  }

  datatype Lex =
    | SelectT            // SELECT t,
    | Open | Close
    | V
    | Literal(value: real)
    | Operator(op: string)
    | AsVFrom            // AS v FROM (
    | VFrom              // v FROM (
    | EndSub             // )
    | Where
    | Innermost(select: string, wheres: string, groups: string)

  function TextOf(l: Lex, w: World): string {
    match l
    case SelectT => "SELECT t, "
    case Open => "("
    case Close => ")"
    case V => "v"
    case Literal(r) => w.fmtFloat(r)
    case Operator(op) => " " + op + " "
    case AsVFrom => " AS v FROM ("
    case VFrom => "v FROM ("
    case EndSub => ")"
    case Where => " WHERE "
    case Innermost(select, wheres, groups) => select + wheres + groups
  }

  function Written(ls: seq<Lex>, w: World): string {
    if ls == [] then "" else Written(ls[..|ls| - 1], w) + TextOf(ls[|ls| - 1], w)
  }

  datatype Result = Result(sql: seq<Lex>, args: seq<Arg>, labels: seq<string>)

  // ---------- the innermost query ----------

  const NANOS := 1_000_000_000

  function StepSeconds(step: int): int {
    var s := if step >= 0 then step / NANOS else -((-step) / NANOS);
    if s <= 0 then 30 else s
  }

  function LabelChar(c: char): char {
    if 'a' <= c <= 'z' || 'A' <= c <= 'Z' || '0' <= c <= '9' || c == '_' then c else '_'
  }

  function LabelCol(name: string): (col: string)
    ensures '?' !in col
  {
    "lbl_" + seq(|name|, i requires 0 <= i < |name| => LabelChar(name[i]))
  }

  function MatcherSql(m: Matcher, w: World): Option<string> {
    var col := "attributes['" + SafeKey(m.name) + "']";
    match m.op
    case MatchEq => Some(col + " = ?")
    case MatchNeq => Some(col + " != ?")
    case MatchRegex => if w.compiles(m.val) then Some("match(" + col + ", ?)") else None
    case MatchNotRegex => if w.compiles(m.val) then Some("NOT match(" + col + ", ?)") else None
  }

  function Clauses(ms: seq<Matcher>, w: World): Option<seq<string>> {
    if ms == [] then Some([])
    else
      match (Clauses(ms[..|ms| - 1], w), MatcherSql(ms[|ms| - 1], w))
      case (Some(cs), Some(c)) => Some(cs + [c])
      case _ => None
  }

  function Values(ms: seq<Matcher>): seq<Arg> {
    seq(|ms|, i requires 0 <= i < |ms| => Text(ms[i].val))
  }

  function Wheres(cs: seq<string>): string {
    Join(["metric_name = ?"] + cs + [RANGE], " AND ")
  }

  /** The metric, the label values, then start and end. */
  function Bound(v: Selector, p: Params): seq<Arg> {
    [Text(v.metric)] + Values(v.matches) + [Time(p.start), Time(p.end)]
  }

  /** extractSelector: through calls of one argument, down to the selector. */
  function FindSelector(n: Node): Option<Selector> {
    match n
    case Vector(v) => Some(v)
    case Range(v, _, _) => Some(v)
    case Call(_, args) => if |args| == 1 then FindSelector(args[0]) else None
    case _ => None
  }

  function AggrText(op: string, phi: Option<real>, w: World): Option<string> {
    if op == "sum" then Some("sum(value)")
    else if op == "avg" then Some("avg(value)")
    else if op == "min" then Some("min(value)")
    else if op == "max" then Some("max(value)")
    else if op == "count" then Some("count(value)")
    else if op == "quantile" then if phi == None then None else Some("quantile(" + w.fmtFloat(phi.value) + ")(value)")
    else None
  }

  function Bucketed(p: Params, w: World): string {
    "toStartOfInterval(timestamp, INTERVAL " + w.fmtInt(StepSeconds(p.step)) + " SECOND) AS t"
  }

  function GroupColumn(lab: string): string {
    "attributes['" + SafeKey(lab) + "'] AS " + LabelCol(lab)
  }

  function Columns(labs: seq<string>): seq<string> {
    seq(|labs|, i requires 0 <= i < |labs| => GroupColumn(labs[i]))
  }

  function Groups(labs: seq<string>): seq<string> {
    seq(|labs|, i requires 0 <= i < |labs| => LabelCol(labs[i]))
  }

  function Selected(exprs: seq<string>): string {
    "SELECT " + Join(exprs, ", ") + " FROM metrics WHERE "
  }

  function Grouped(groups: seq<string>): string {
    " GROUP BY " + Join(groups, ", ") + " ORDER BY t"
  }

  function LowerAggr(op: string, phi: Option<real>, labs: seq<string>, arg: Node, p: Params, w: World): Option<Result> {
    match FindSelector(arg)
    case None => None
    case Some(v) =>
      match (Clauses(v.matches, w), AggrText(op, phi, w))
      case (Some(cs), Some(aggr)) =>
        Some(Result(
          [Innermost(Selected([Bucketed(p, w), aggr + " AS v"] + Columns(labs)), Wheres(cs), Grouped(["t"] + Groups(labs)))],
          Bound(v, p), labs))
      case _ => None
  }

  function RateText(name: string, p: Params, w: World): Option<string> {
    if name == "rate" then Some("(max(value) - min(value)) / " + w.fmtInt(StepSeconds(p.step)))
    else if name == "irate" then Some("(anyLast(value) - any(value)) / " + w.fmtInt(StepSeconds(p.step)))
    else if name == "increase" then Some("(max(value) - min(value))")
    else None
  }

  function OverTime(name: string): Option<string> {
    if name == "avg_over_time" then Some("avg")
    else if name == "sum_over_time" then Some("sum")
    else if name == "min_over_time" then Some("min")
    else if name == "max_over_time" then Some("max")
    else if name == "count_over_time" then Some("count")
    else None
  }

  function LowerRate(v: Selector, expr: string, p: Params, w: World): Option<Result> {
    match Clauses(v.matches, w)
    case None => None
    case Some(cs) =>
      Some(Result(
        [Innermost(Selected([Bucketed(p, w), expr + " AS v"]), Wheres(cs), Grouped(["t"]))],
        Bound(v, p), []))
  }

  function LowerCall(name: string, args: seq<Node>, p: Params, w: World): Option<Result> {
    if RateText(name, p, w).Some? then
      if |args| != 1 || !args[0].Range? then None
      else LowerRate(args[0].v, RateText(name, p, w).value, p, w)
    else if OverTime(name).Some? then
      if |args| != 1 || !args[0].Range? then None
      else LowerAggr(OverTime(name).value, None, [], Vector(args[0].v), p, w)
    else if name == "quantile_over_time" then
      if |args| != 2 || !args[0].Num? || !args[1].Range? then None
      else LowerAggr("quantile", Some(args[0].value), [], Vector(args[1].v), p, w)
    else None
  }

  // ---------- binary operators ----------

  predicate IsArithmetic(op: string) {
    op in ["+", "-", "*", "/"]
  }

  predicate IsComparison(op: string) {
    op in [">", "<", ">=", "<=", "==", "!="]
  }

  function Wrap(op: string, scalar: real, swapped: bool, inner: Result): Option<Result> {
    if IsArithmetic(op) then
      var expr := if swapped then [Literal(scalar), Operator(op), V] else [V, Operator(op), Literal(scalar)];
      Some(inner.(sql := [SelectT, Open] + expr + [Close, AsVFrom] + inner.sql + [EndSub]))
    else if IsComparison(op) then
      var sqlOp := if op == "==" then "=" else op;
      var cond := if swapped then [Literal(scalar), Operator(sqlOp), V] else [V, Operator(sqlOp), Literal(scalar)];
      Some(inner.(sql := [SelectT, VFrom] + inner.sql + [EndSub, Where] + cond))
    else None
  }

  function Lower(n: Node, p: Params, w: World): Option<Result> {
    match n
    case Aggr(op, arg, labs, _, phi) => LowerAggr(op, phi, labs, arg, p, w)
    case Call(name, args) => LowerCall(name, args, p, w)
    case Vector(v) => LowerAggr("avg", None, [], n, p, w)
    case Range(v, _, _) => LowerAggr("avg", None, [], Vector(v), p, w)
    case Bin(op, left, right) =>
      if right.Num? then
        (match Lower(left, p, w) case None => None case Some(inner) => Wrap(op, right.value, false, inner))
      else if left.Num? then
        (match Lower(right, p, w) case None => None case Some(inner) => Wrap(op, left.value, true, inner))
      else None
    case Num(_) => None
  }

  // ---------- the loops of the source ----------

  lemma {:induction false} BadClause(ms: seq<Matcher>, k: nat, w: World)
    requires k <= |ms| && Clauses(ms[..k], w) == None
    ensures Clauses(ms, w) == None
  {
    hide MatcherSql;
    if k < |ms| {
      assert ms[..|ms| - 1][..k] == ms[..k];
      BadClause(ms[..|ms| - 1], k, w);
    } else {
      assert ms[..k] == ms;
    }
  }

  method SelectorWheres(v: Selector, p: Params, w: World) returns (wheres: Option<seq<string>>, args: seq<Arg>)
    ensures Clauses(v.matches, w) == None ==> wheres == None
    ensures Clauses(v.matches, w).Some? ==> wheres == Some(["metric_name = ?"] + Clauses(v.matches, w).value + [RANGE])
    ensures wheres.Some? ==> args == Bound(v, p)
  {
    hide MatcherSql;
    var out: seq<string> := ["metric_name = ?"];
    args := [Text(v.metric)];
    for i := 0 to |v.matches|
      invariant Clauses(v.matches[..i], w).Some? && out == ["metric_name = ?"] + Clauses(v.matches[..i], w).value
      invariant args == [Text(v.metric)] + Values(v.matches[..i])
    {
      assert v.matches[..i + 1][..i] == v.matches[..i];
      var clause := MatcherSql(v.matches[i], w);
      if clause == None {
        BadClause(v.matches, i + 1, w);
        return None, args;
      }
      out, args := out + [clause.value], args + [Text(v.matches[i].val)];
    }
    assert v.matches[..|v.matches|] == v.matches;
    args := args + [Time(p.start), Time(p.end)];
    wheres := Some(out + [RANGE]);
  }

  method GroupBy(labs: seq<string>, first: seq<string>) returns (exprs: seq<string>, groups: seq<string>)
    ensures exprs == first + Columns(labs) && groups == ["t"] + Groups(labs)
  {
    hide GroupColumn, LabelCol;
    exprs, groups := first, ["t"];
    for i := 0 to |labs|
      invariant exprs == first + Columns(labs[..i]) && groups == ["t"] + Groups(labs[..i])
    {
      exprs, groups := exprs + [GroupColumn(labs[i])], groups + [LabelCol(labs[i])];
    }
    assert labs[..|labs|] == labs;
  }

  method EmitAggr(op: string, phi: Option<real>, labs: seq<string>, arg: Node, p: Params, w: World) returns (r: Option<Result>)
    ensures r == LowerAggr(op, phi, labs, arg, p, w)
  {
    hide Clauses, AggrText, Bucketed, Selected, Grouped, Columns, Groups, Bound, FindSelector, Join;
    var v := FindSelector(arg);
    if v == None {
      return None;
    }
    var wheres, args := SelectorWheres(v.value, p, w);
    if wheres == None {
      return None;
    }
    var aggr := AggrText(op, phi, w);
    if aggr == None {
      return None;
    }
    var exprs, groups := GroupBy(labs, [Bucketed(p, w), aggr.value + " AS v"]);
    return Some(Result([Innermost(Selected(exprs), Join(wheres.value, " AND "), Grouped(groups))], args, labs));
  }

  // ---------- one parameter per argument ----------

  lemma MatcherHasOneHole(m: Matcher, w: World)
    requires MatcherSql(m, w).Some?
    ensures Holes(MatcherSql(m, w).value) == 1
  {
    var key := SafeKey(m.name);
    hide Holes, SafeKey;
    var col := "attributes['" + key + "']";
    assert '?' !in col;
    match m.op
    case MatchEq =>
      OneHole(col + " = ", "");
      assert col + " = " + "?" + "" == col + " = ?";
    case MatchNeq =>
      OneHole(col + " != ", "");
      assert col + " != " + "?" + "" == col + " != ?";
    case MatchRegex =>
      OneHole("match(" + col + ", ", ")");
      assert "match(" + col + ", " + "?" + ")" == "match(" + col + ", ?)";
    case MatchNotRegex =>
      OneHole("NOT match(" + col + ", ", ")");
      assert "NOT match(" + col + ", " + "?" + ")" == "NOT match(" + col + ", ?)";
  }

  lemma {:induction false} ClausesAreSingle(ms: seq<Matcher>, w: World)
    requires Clauses(ms, w).Some?
    ensures Single(Clauses(ms, w).value) && |Clauses(ms, w).value| == |ms|
  {
    hide MatcherSql, Holes;
    if ms != [] {
      ClausesAreSingle(ms[..|ms| - 1], w);
      MatcherHasOneHole(ms[|ms| - 1], w);
    }
  }

  lemma MetricIsSingle()
    ensures Single(["metric_name = ?"])
  {
    OneHole("metric_name = ", "");
    assert "metric_name = " + "?" + "" == "metric_name = ?";
  }

  /** The WHERE text of a selector has one parameter per bound argument. */
  lemma WheresHoles(v: Selector, p: Params, w: World)
    requires Clauses(v.matches, w).Some?
    ensures Holes(Wheres(Clauses(v.matches, w).value)) == |Bound(v, p)|
  {
    hide Holes, Single, Join;
    var cs := Clauses(v.matches, w).value;
    ClausesAreSingle(v.matches, w);
    MetricIsSingle();
    SingleTogether(["metric_name = ?"], cs);
    JoinAppend(["metric_name = ?"] + cs, RANGE, " AND ");
    RangeHoles();
  }

  predicate Unmarked(cs: seq<string>) {
    forall c <- cs :: '?' !in c
  }

  lemma LabelsAreUnmarked(labs: seq<string>)
    ensures Unmarked(["t"] + Groups(labs)) && Unmarked(Columns(labs))
  {
    hide LabelCol, SafeKey;
    forall c <- Columns(labs) ensures '?' !in c {
      var i :| 0 <= i < |labs| && c == GroupColumn(labs[i]);
      Glue("attributes['", SafeKey(labs[i]), "'] AS ");
    }
  }

  lemma Glue(a: string, b: string, c: string)
    requires '?' !in a && '?' !in b && '?' !in c
    ensures '?' !in a + b + c
  {}

  lemma BucketIsPlain(p: Params, w: World)
    requires Sound(w)
    ensures '?' !in Bucketed(p, w)
  {
    Glue("toStartOfInterval(timestamp, INTERVAL ", w.fmtInt(StepSeconds(p.step)), " SECOND) AS t");
  }

  lemma FloatIsPlain(r: real, w: World)
    requires Sound(w)
    ensures '?' !in w.fmtFloat(r)
  {}

  lemma AggrIsPlain(op: string, phi: Option<real>, w: World)
    requires Sound(w) && AggrText(op, phi, w).Some?
    ensures '?' !in AggrText(op, phi, w).value
  {
    if op == "quantile" {
      FloatIsPlain(phi.value, w);
      Glue("quantile(", w.fmtFloat(phi.value), ")(value)");
    }
  }

  lemma RateIsPlain(name: string, p: Params, w: World)
    requires Sound(w) && RateText(name, p, w).Some?
    ensures '?' !in RateText(name, p, w).value
  {
    Glue("(max(value) - min(value)) / ", w.fmtInt(StepSeconds(p.step)), "");
    Glue("(anyLast(value) - any(value)) / ", w.fmtInt(StepSeconds(p.step)), "");
  }

  lemma FrameIsPlain(exprs: seq<string>, groups: seq<string>)
    requires Unmarked(exprs) && Unmarked(groups)
    ensures '?' !in Selected(exprs) && '?' !in Grouped(groups)
  {
    hide Join;
    JoinPlain(exprs, ", ");
    JoinPlain(groups, ", ");
    Glue("SELECT ", Join(exprs, ", "), " FROM metrics WHERE ");
    Glue(" GROUP BY ", Join(groups, ", "), " ORDER BY t");
  }

  lemma FramedHoles(exprs: seq<string>, v: Selector, groups: seq<string>, p: Params, w: World)
    requires Unmarked(exprs) && Unmarked(groups) && Clauses(v.matches, w).Some?
    ensures Holes(Selected(exprs) + Wheres(Clauses(v.matches, w).value) + Grouped(groups)) == |Bound(v, p)|
  {
    hide Holes, Unmarked, Selected, Grouped, Wheres, Clauses, Bound;
    FrameIsPlain(exprs, groups);
    WheresHoles(v, p, w);
    HolesAround(Selected(exprs), Wheres(Clauses(v.matches, w).value), Grouped(groups));
  }

  lemma AggrHoles(op: string, phi: Option<real>, labs: seq<string>, arg: Node, p: Params, w: World)
    requires Sound(w) && LowerAggr(op, phi, labs, arg, p, w).Some?
    ensures var r := LowerAggr(op, phi, labs, arg, p, w).value; |r.sql| == 1 && Holes(TextOf(r.sql[0], w)) == |r.args|
  {
    hide Holes, FindSelector, Clauses, AggrText, Bucketed, Wheres, Bound, Groups, Columns, Sound, Selected, Grouped;
    AggrIsPlain(op, phi, w);
    BucketIsPlain(p, w);
    LabelsAreUnmarked(labs);
    var aggr := AggrText(op, phi, w).value;
    Glue(aggr, " AS v", "");
    assert aggr + " AS v" + "" == aggr + " AS v";
    FramedHoles([Bucketed(p, w), aggr + " AS v"] + Columns(labs), FindSelector(arg).value, ["t"] + Groups(labs), p, w);
  }

  lemma RateHoles(v: Selector, name: string, p: Params, w: World)
    requires Sound(w) && RateText(name, p, w).Some? && LowerRate(v, RateText(name, p, w).value, p, w).Some?
    ensures var r := LowerRate(v, RateText(name, p, w).value, p, w).value;
            |r.sql| == 1 && Holes(TextOf(r.sql[0], w)) == |r.args|
  {
    var expr := RateText(name, p, w).value;
    hide Holes, Clauses, RateText, Bucketed, Wheres, Bound, Sound, Selected, Grouped;
    RateIsPlain(name, p, w);
    BucketIsPlain(p, w);
    Glue(expr, " AS v", "");
    assert expr + " AS v" + "" == expr + " AS v";
    FramedHoles([Bucketed(p, w), expr + " AS v"], v, ["t"], p, w);
  }

  lemma {:induction false} WrittenConcat(a: seq<Lex>, b: seq<Lex>, w: World)
    ensures Written(a + b, w) == Written(a, w) + Written(b, w)
  {
    hide TextOf;
    if b == [] {
      assert a + b == a;
    } else {
      WrittenConcat(a, b[..|b| - 1], w);
      assert (a + b)[..|a + b| - 1] == a + b[..|b| - 1];
    }
  }

  predicate Plain(ls: seq<Lex>) {
    forall l <- ls :: !l.Innermost? && (l.Operator? ==> '?' !in l.op)
  }

  lemma {:induction false} PlainHasNoHole(ls: seq<Lex>, w: World)
    requires Sound(w) && Plain(ls)
    ensures '?' !in Written(ls, w)
  {
    if ls != [] {
      var l := ls[|ls| - 1];
      assert l in ls && forall x <- ls[..|ls| - 1] :: x in ls;
      PlainHasNoHole(ls[..|ls| - 1], w);
      assert '?' !in TextOf(l, w);
    }
  }

  lemma WrapHoles(before: seq<Lex>, inner: seq<Lex>, after: seq<Lex>, w: World)
    requires Sound(w) && Plain(before) && Plain(after)
    ensures Holes(Written(before + inner + after, w)) == Holes(Written(inner, w))
  {
    hide Holes, Written, TextOf;
    WrittenConcat(before, inner, w);
    WrittenConcat(before + inner, after, w);
    PlainHasNoHole(before, w);
    PlainHasNoHole(after, w);
    HolesAround(Written(before, w), Written(inner, w), Written(after, w));
  }

  /** What stands before and after the inner query. */
  function Before(op: string, scalar: real, swapped: bool): seq<Lex> {
    if IsArithmetic(op) then
      [SelectT, Open] + (if swapped then [Literal(scalar), Operator(op), V] else [V, Operator(op), Literal(scalar)]) + [Close, AsVFrom]
    else [SelectT, VFrom]
  }

  function SqlOp(op: string): string {
    if op == "==" then "=" else op
  }

  function After(op: string, scalar: real, swapped: bool): seq<Lex> {
    if IsArithmetic(op) then [EndSub]
    else
      [EndSub, Where] +
      if swapped then [Literal(scalar), Operator(SqlOp(op)), V] else [V, Operator(SqlOp(op)), Literal(scalar)]
  }

  lemma WrapShape(op: string, scalar: real, swapped: bool, inner: Result)
    requires Wrap(op, scalar, swapped, inner).Some?
    ensures Wrap(op, scalar, swapped, inner).value ==
            inner.(sql := Before(op, scalar, swapped) + inner.sql + After(op, scalar, swapped))
    ensures Plain(Before(op, scalar, swapped)) && Plain(After(op, scalar, swapped))
  {}

  lemma OneLexeme(ls: seq<Lex>, w: World)
    requires |ls| == 1
    ensures Written(ls, w) == TextOf(ls[0], w)
  {
    assert ls[..0] == [];
  }

  /** Every translated tree has exactly one positional parameter per argument, at any depth. */
  lemma {:induction false} OneHolePerArgument(n: Node, p: Params, w: World)
    requires Sound(w) && Lower(n, p, w).Some?
    ensures var r := Lower(n, p, w).value; Holes(Written(r.sql, w)) == |r.args|
  {
    hide Holes, Written, TextOf, LowerAggr, LowerRate, Wrap, RateText, OverTime, Sound;
    match n
    case Aggr(op, arg, labs, _, phi) =>
      AggrHoles(op, phi, labs, arg, p, w);
      OneLexeme(Lower(n, p, w).value.sql, w);
    case Call(name, args) =>
      CallHoles(name, args, p, w);
      OneLexeme(Lower(n, p, w).value.sql, w);
    case Vector(v) =>
      AggrHoles("avg", None, [], n, p, w);
      OneLexeme(Lower(n, p, w).value.sql, w);
    case Range(v, _, _) =>
      AggrHoles("avg", None, [], Vector(v), p, w);
      OneLexeme(Lower(n, p, w).value.sql, w);
    case Bin(op, left, right) =>
      var inner := if right.Num? then left else right;
      OneHolePerArgument(inner, p, w);
      var r := Lower(inner, p, w).value;
      var scalar, swapped := if right.Num? then right.value else left.value, !right.Num?;
      WrapShape(op, scalar, swapped, r);
      WrapHoles(Before(op, scalar, swapped), r.sql, After(op, scalar, swapped), w);
  }

  lemma CallHoles(name: string, args: seq<Node>, p: Params, w: World)
    requires Sound(w) && LowerCall(name, args, p, w).Some?
    ensures var r := LowerCall(name, args, p, w).value; |r.sql| == 1 && Holes(TextOf(r.sql[0], w)) == |r.args|
  {
    hide Holes, TextOf, LowerAggr, LowerRate, Sound;
    if RateText(name, p, w).Some? {
      RateHoles(args[0].v, name, p, w);
    } else if OverTime(name).Some? {
      AggrHoles(OverTime(name).value, None, [], Vector(args[0].v), p, w);
    } else {
      AggrHoles("quantile", Some(args[0].value), [], Vector(args[1].v), p, w);
    }
  }
}
