/** What lowered PromQL returns: the emitted SQL, read under SQL's grammar and run over any
    database, gives the rows the tree means, at any depth of binary operators. */
module PromqlRows {
  import opened Optional
  import opened PromqlAst
  import opened PromqlPrinter
  import opened PromqlText
  import opened PromqlTranslate
  import opened PromqlWhere

  datatype Row = Row(t: int, v: real)

  /** The stored points; what the SELECT and GROUP BY texts of an innermost query make of the points
      that its WHERE lets through; regular expressions; and the value of a quotient. */
  datatype Database = Database(
    points: seq<Point>,
    summary: (string, string, seq<Point>) -> seq<Row>,
    matching: Matching,
    quotient: (real, real) -> real)

  // ---------- reading the SQL ----------

  datatype Operand = TheValue | Constant(value: real)

  datatype Sql =
    | Base(select: string, wheres: string, groups: string)
    | Compute(inner: Sql, left: Operand, op: string, right: Operand)
    | Filter(inner: Sql, left: Operand, op: string, right: Operand)

  function ReadOperand(l: Lex): Option<Operand> {
    match l
    case V => Some(TheValue)
    case Literal(r) => Some(Constant(r))
    case _ => None
  }

  /** One nested SELECT and what follows it. */
  function ReadSql(ls: seq<Lex>): (r: Option<(Sql, seq<Lex>)>)
    ensures r.Some? ==> |r.value.1| < |ls|
    decreases |ls|
  {
    if ls == [] then None
    else if ls[0].Innermost? then Some((Base(ls[0].select, ls[0].wheres, ls[0].groups), ls[1..]))
    else if |ls| >= 2 && ls[0] == SelectT && ls[1] == VFrom then
      match ReadSql(ls[2..])
      case None => None
      case Some((inner, rest)) =>
        if |rest| < 5 || rest[0] != EndSub || rest[1] != Where || !rest[3].Operator? then None
        else
          match (ReadOperand(rest[2]), ReadOperand(rest[4]))
          case (Some(a), Some(b)) => Some((Filter(inner, a, rest[3].op, b), rest[5..]))
          case _ => None
    else if |ls| >= 7 && ls[0] == SelectT && ls[1] == Open && ls[3].Operator? && ls[5] == Close && ls[6] == AsVFrom then
      match ReadSql(ls[7..])
      case None => None
      case Some((inner, rest)) =>
        if rest == [] || rest[0] != EndSub then None
        else
          match (ReadOperand(ls[2]), ReadOperand(ls[4]))
          case (Some(a), Some(b)) => Some((Compute(inner, a, ls[3].op, b), rest[1..]))
          case _ => None
    else None
  }

  // ---------- running it ----------

  function Side(o: Operand, v: real): real {
    match o
    case TheValue => v
    case Constant(r) => r
  }

  function Arith(op: string, a: real, b: real, db: Database): real {
    if op == "+" then a + b
    else if op == "-" then a - b
    else if op == "*" then a * b
    else db.quotient(a, b)
  }

  /** SQL comparisons: equality is a single sign. */
  predicate SqlHolds(op: string, a: real, b: real) {
    if op == ">" then a > b
    else if op == "<" then a < b
    else if op == ">=" then a >= b
    else if op == "<=" then a <= b
    else if op == "=" then a == b
    else op == "!=" && a != b
  }

  function Computed(rows: seq<Row>, left: Operand, op: string, right: Operand, db: Database): seq<Row> {
    seq(|rows|, i requires 0 <= i < |rows| => Row(rows[i].t, Arith(op, Side(left, rows[i].v), Side(right, rows[i].v), db)))
  }

  function Kept(rows: seq<Row>, left: Operand, op: string, right: Operand): seq<Row> {
    if rows == [] then []
    else
      var r := rows[|rows| - 1];
      Kept(rows[..|rows| - 1], left, op, right) + if SqlHolds(op, Side(left, r.v), Side(right, r.v)) then [r] else []
  }

  /** The points that the WHERE text lets through. */
  function Admitted(points: seq<Point>, wheres: string, args: seq<Arg>, re: Matching): seq<Point> {
    if points == [] then []
    else
      var pt := points[|points| - 1];
      Admitted(points[..|points| - 1], wheres, args, re) + if TextHolds(wheres, args, pt, re) then [pt] else []
  }

  function Execute(sql: Sql, args: seq<Arg>, db: Database): seq<Row> {
    match sql
    case Base(select, wheres, groups) => db.summary(select, groups, Admitted(db.points, wheres, args, db.matching))
    case Compute(inner, a, op, b) => Computed(Execute(inner, args, db), a, op, b, db)
    case Filter(inner, a, op, b) => Kept(Execute(inner, args, db), a, op, b)
  }

  function RowsOf(ls: seq<Lex>, args: seq<Arg>, db: Database): Option<seq<Row>> {
    match ReadSql(ls)
    case None => None
    case Some((sql, rest)) => if rest == [] then Some(Execute(sql, args, db)) else None
  }

  // ---------- what a tree means ----------

  /** PromQL comparisons: equality is a double sign. */
  predicate PromHolds(op: string, a: real, b: real) {
    if op == "==" then a == b else op != "=" && SqlHolds(op, a, b)
  }

  /** A scalar operation applied to each row: arithmetic replaces the value, a comparison drops
      the rows where it fails. `swapped` says the scalar is the left operand. */
  function Applied(rows: seq<Row>, op: string, scalar: real, swapped: bool, db: Database): seq<Row> {
    if rows == [] then []
    else
      var r := rows[|rows| - 1];
      var a, b := if swapped then scalar else r.v, if swapped then r.v else scalar;
      Applied(rows[..|rows| - 1], op, scalar, swapped, db) +
      if IsArithmetic(op) then [Row(r.t, Arith(op, a, b, db))]
      else if PromHolds(op, a, b) then [r] else []
  }

  /** The points that a selector asks for in a time range. */
  function WantedPoints(points: seq<Point>, v: Selector, p: Params, re: Matching): seq<Point> {
    if points == [] then []
    else
      var pt := points[|points| - 1];
      WantedPoints(points[..|points| - 1], v, p, re) + if Wanted(v, p, pt, re) then [pt] else []
  }

  /** The selector of an innermost query. */
  function LeafSelector(n: Node): Option<Selector> {
    match n
    case Vector(v) => Some(v)
    case Range(v, _, _) => Some(v)
    case Aggr(_, arg, _, _, _) => FindSelector(arg)
    case Call(_, args) =>
      if args != [] && args[|args| - 1].Range? then Some(args[|args| - 1].v) else None
    case _ => None
  }

  /** The rows of a tree: binary operators over the rows that the innermost query makes of exactly
      the points its selector asks for. */
  function Meaning(n: Node, p: Params, w: World, db: Database): seq<Row> {
    match n
    case Bin(op, left, right) =>
      if right.Num? then Applied(Meaning(left, p, w, db), op, right.value, false, db)
      else if left.Num? then Applied(Meaning(right, p, w, db), op, left.value, true, db)
      else []
    case _ =>
      match (Lower(n, p, w), LeafSelector(n))
      case (Some(r), Some(v)) =>
        if r.sql != [] && r.sql[0].Innermost?
        then db.summary(r.sql[0].select, r.sql[0].groups, WantedPoints(db.points, v, p, db.matching))
        else []
      case _ => []
  }

  /** The operands of a scalar operation, in the order of the tree. */
  function LeftSide(scalar: real, swapped: bool): Operand {
    if swapped then Constant(scalar) else TheValue
  }

  function RightSide(scalar: real, swapped: bool): Operand {
    LeftSide(scalar, !swapped)
  }

  lemma {:induction false} ComputedApplies(rows: seq<Row>, op: string, scalar: real, swapped: bool, db: Database)
    requires IsArithmetic(op)
    ensures Applied(rows, op, scalar, swapped, db) ==
            Computed(rows, LeftSide(scalar, swapped), op, RightSide(scalar, swapped), db)
  {
    hide Arith, IsArithmetic;
    if rows != [] {
      ComputedApplies(rows[..|rows| - 1], op, scalar, swapped, db);
    }
  }

  lemma {:induction false} KeptApplies(rows: seq<Row>, op: string, scalar: real, swapped: bool, db: Database)
    requires IsComparison(op)
    ensures Applied(rows, op, scalar, swapped, db) ==
            Kept(rows, LeftSide(scalar, swapped), SqlOp(op), RightSide(scalar, swapped))
  {
    if rows != [] {
      KeptApplies(rows[..|rows| - 1], op, scalar, swapped, db);
      var r := rows[|rows| - 1];
      SameComparison(op, if swapped then scalar else r.v, if swapped then r.v else scalar);
      hide PromHolds, SqlHolds, SqlOp;
    }
  }

  lemma SameComparison(op: string, a: real, b: real)
    requires IsComparison(op)
    ensures PromHolds(op, a, b) == SqlHolds(SqlOp(op), a, b) && !IsArithmetic(op)
  {}

  // ---------- reading back what was emitted ----------

  lemma ReadComputed(op: string, scalar: real, swapped: bool, inner: seq<Lex>, sql: Sql, rest: seq<Lex>)
    requires IsArithmetic(op) && ReadSql(inner + ([EndSub] + rest)) == Some((sql, [EndSub] + rest))
    ensures ReadSql(Before(op, scalar, swapped) + inner + After(op, scalar, swapped) + rest) ==
            Some((Compute(sql, LeftSide(scalar, swapped), op, RightSide(scalar, swapped)), rest))
  {
    hide ReadSql;
    var ls := Before(op, scalar, swapped) + inner + After(op, scalar, swapped) + rest;
    assert ls[7..] == inner + ([EndSub] + rest);
    assert ([EndSub] + rest)[1..] == rest;
    StepComputed(ls);
  }

  lemma StepComputed(ls: seq<Lex>)
    requires |ls| >= 7 && ls[0] == SelectT && ls[1] == Open && ls[3].Operator? && ls[5] == Close && ls[6] == AsVFrom
    requires ReadSql(ls[7..]).Some? && ReadSql(ls[7..]).value.1 != [] && ReadSql(ls[7..]).value.1[0] == EndSub
    requires ReadOperand(ls[2]).Some? && ReadOperand(ls[4]).Some?
    ensures ReadSql(ls) ==
            Some((Compute(ReadSql(ls[7..]).value.0, ReadOperand(ls[2]).value, ls[3].op, ReadOperand(ls[4]).value),
                  ReadSql(ls[7..]).value.1[1..]))
  {}

  lemma ReadKept(op: string, scalar: real, swapped: bool, inner: seq<Lex>, sql: Sql, rest: seq<Lex>)
    requires IsComparison(op)
    requires var tail := After(op, scalar, swapped) + rest; ReadSql(inner + tail) == Some((sql, tail))
    ensures ReadSql(Before(op, scalar, swapped) + inner + After(op, scalar, swapped) + rest) ==
            Some((Filter(sql, LeftSide(scalar, swapped), SqlOp(op), RightSide(scalar, swapped)), rest))
  {
    hide ReadSql, SqlOp;
    var tail := After(op, scalar, swapped) + rest;
    var ls := Before(op, scalar, swapped) + inner + After(op, scalar, swapped) + rest;
    assert ls[2..] == inner + tail;
    assert tail[5..] == rest;
    StepKept(ls);
  }

  lemma StepKept(ls: seq<Lex>)
    requires |ls| >= 2 && ls[0] == SelectT && ls[1] == VFrom && ReadSql(ls[2..]).Some?
    requires var rest := ReadSql(ls[2..]).value.1;
             |rest| >= 5 && rest[0] == EndSub && rest[1] == Where && rest[3].Operator?
             && ReadOperand(rest[2]).Some? && ReadOperand(rest[4]).Some?
    ensures var rest := ReadSql(ls[2..]).value.1;
            ReadSql(ls) ==
            Some((Filter(ReadSql(ls[2..]).value.0, ReadOperand(rest[2]).value, rest[3].op, ReadOperand(rest[4]).value),
                  rest[5..]))
  {}

  lemma AggrShape(op: string, phi: Option<real>, labs: seq<string>, arg: Node, p: Params, w: World)
    requires LowerAggr(op, phi, labs, arg, p, w).Some?
    ensures IsLeaf(LowerAggr(op, phi, labs, arg, p, w).value, FindSelector(arg), p, w)
  {
    hide Clauses, AggrText, FindSelector, Selected, Grouped, Wheres, Bound, Bucketed;
  }

  lemma RateShape(v: Selector, expr: string, p: Params, w: World)
    requires LowerRate(v, expr, p, w).Some?
    ensures IsLeaf(LowerRate(v, expr, p, w).value, Some(v), p, w)
  {
    hide Clauses, Selected, Grouped, Wheres, Bound, Bucketed;
  }

  /** One innermost query over one selector. */
  predicate IsLeaf(r: PromqlTranslate.Result, v: Option<Selector>, p: Params, w: World) {
    && v.Some? && Clauses(v.value.matches, w).Some?
    && |r.sql| == 1 && r.sql[0].Innermost?
    && r.sql[0].wheres == Wheres(Clauses(v.value.matches, w).value) && r.args == Bound(v.value, p)
  }

  lemma LeafShape(n: Node, p: Params, w: World)
    requires !n.Bin? && Lower(n, p, w).Some?
    ensures IsLeaf(Lower(n, p, w).value, LeafSelector(n), p, w)
  {
    hide LowerAggr, LowerRate, RateText, OverTime, IsLeaf;
    match n
    case Aggr(op, arg, labs, _, phi) => AggrShape(op, phi, labs, arg, p, w);
    case Vector(v) => AggrShape("avg", None, [], n, p, w);
    case Range(v, _, _) => AggrShape("avg", None, [], Vector(v), p, w);
    case Call(name, args) =>
      if RateText(name, p, w).Some? {
        RateShape(args[0].v, RateText(name, p, w).value, p, w);
      } else if OverTime(name).Some? {
        AggrShape(OverTime(name).value, None, [], Vector(args[0].v), p, w);
      } else {
        AggrShape("quantile", Some(args[0].value), [], Vector(args[1].v), p, w);
      }
  }

  /** The WHERE text of a leaf lets through exactly the points its selector asks for. */
  lemma {:induction false} AdmittedAreWanted(points: seq<Point>, v: Selector, p: Params, w: World, re: Matching)
    requires Clauses(v.matches, w).Some?
    ensures Admitted(points, Wheres(Clauses(v.matches, w).value), Bound(v, p), re) == WantedPoints(points, v, p, re)
  {
    hide TextHolds, Wanted, Wheres, Bound, Clauses;
    if points != [] {
      AdmittedAreWanted(points[..|points| - 1], v, p, w, re);
      WheresMean(v, p, w, points[|points| - 1], re);
    }
  }

  lemma LeafMeans(n: Node, p: Params, w: World, db: Database)
    requires !n.Bin? && Lower(n, p, w).Some?
    ensures var r := Lower(n, p, w).value;
            && r.sql != [] && r.sql[0].Innermost? && |r.sql| == 1
            && Execute(Base(r.sql[0].select, r.sql[0].wheres, r.sql[0].groups), r.args, db) == Meaning(n, p, w, db)
  {
    LeafShape(n, p, w);
    hide Lower, LeafSelector, Wheres, Bound, Clauses, Admitted, WantedPoints;
    AdmittedAreWanted(db.points, LeafSelector(n).value, p, w, db.matching);
  }

  /** The SQL of a supported tree reads as nested selects that return the rows the tree means. */
  lemma {:induction false} LoweredReads(n: Node, p: Params, w: World, db: Database, rest: seq<Lex>) returns (sql: Sql)
    requires Lower(n, p, w).Some?
    ensures ReadSql(Lower(n, p, w).value.sql + rest) == Some((sql, rest))
    ensures Execute(sql, Lower(n, p, w).value.args, db) == Meaning(n, p, w, db)
    decreases n
  {
    hide LowerAggr, LowerCall, Wrap, ReadSql, Applied, Computed, Kept, Before, After;
    if n.Bin? {
      var swapped := !n.right.Num?;
      var child, scalar := if swapped then n.right else n.left, if swapped then n.left.value else n.right.value;
      var r := Lower(child, p, w).value;
      WrapShape(n.binop, scalar, swapped, r);
      WrapKind(n.binop, scalar, swapped, r);
      var rows := Meaning(child, p, w, db);
      var tail := After(n.binop, scalar, swapped) + rest;
      var inner := LoweredReads(child, p, w, db, tail);
      if IsArithmetic(n.binop) {
        AfterArithmetic(n.binop, scalar, swapped);
        ReadComputed(n.binop, scalar, swapped, r.sql, inner, rest);
        ComputedApplies(rows, n.binop, scalar, swapped, db);
        sql := Compute(inner, LeftSide(scalar, swapped), n.binop, RightSide(scalar, swapped));
      } else {
        ReadKept(n.binop, scalar, swapped, r.sql, inner, rest);
        KeptApplies(rows, n.binop, scalar, swapped, db);
        sql := Filter(inner, LeftSide(scalar, swapped), SqlOp(n.binop), RightSide(scalar, swapped));
      }
    } else {
      LeafMeans(n, p, w, db);
      var r := Lower(n, p, w).value;
      sql := Base(r.sql[0].select, r.sql[0].wheres, r.sql[0].groups);
      assert (r.sql + rest)[1..] == rest;
      ReadLeaf(r.sql + rest);
    }
  }

  lemma ReadLeaf(ls: seq<Lex>)
    requires ls != [] && ls[0].Innermost?
    ensures ReadSql(ls) == Some((Base(ls[0].select, ls[0].wheres, ls[0].groups), ls[1..]))
  {}

  lemma AfterArithmetic(op: string, scalar: real, swapped: bool)
    requires IsArithmetic(op)
    ensures After(op, scalar, swapped) == [EndSub]
  {}

  lemma WrapKind(op: string, scalar: real, swapped: bool, inner: PromqlTranslate.Result)
    requires Wrap(op, scalar, swapped, inner).Some?
    ensures IsArithmetic(op) || IsComparison(op)
  {}

  /** For every supported tree, the nested SQL returns exactly the (t, v) rows the tree means. */
  lemma LoweredMeans(n: Node, p: Params, w: World, db: Database)
    requires Lower(n, p, w).Some?
    ensures RowsOf(Lower(n, p, w).value.sql, Lower(n, p, w).value.args, db) == Some(Meaning(n, p, w, db))
  {
    var sql := LoweredReads(n, p, w, db, []);
    assert Lower(n, p, w).value.sql + [] == Lower(n, p, w).value.sql;
  }

  // ---------- which trees are supported ----------

  predicate Compiles(ms: seq<Matcher>, w: World) {
    forall m <- ms | m.op == MatchRegex || m.op == MatchNotRegex :: w.compiles(m.val)
  }

  lemma {:induction false} ClausesIff(ms: seq<Matcher>, w: World)
    ensures Clauses(ms, w).Some? <==> Compiles(ms, w)
  {
    if ms != [] {
      var before, m := ms[..|ms| - 1], ms[|ms| - 1];
      ClausesIff(before, w);
      assert ms == before + [m];
    }
  }

  predicate SelectorOk(n: Node, w: World) {
    FindSelector(n).Some? && Compiles(FindSelector(n).value.matches, w)
  }

  /** A chain of scalar operations over one selector, aggregation or range function. */
  predicate Supported(n: Node, w: World) {
    match n
    case Num(_) => false
    case Vector(v) => Compiles(v.matches, w)
    case Range(v, _, _) => Compiles(v.matches, w)
    case Aggr(op, arg, _, _, phi) => IsAggrName(op) && (op == "quantile" ==> phi.Some?) && SelectorOk(arg, w)
    case Call(name, args) =>
      if name == "quantile_over_time" then |args| == 2 && args[0].Num? && args[1].Range? && Compiles(args[1].v.matches, w)
      else
        && name in ["rate", "irate", "increase",
                    "avg_over_time", "sum_over_time", "min_over_time", "max_over_time", "count_over_time"]
        && |args| == 1 && args[0].Range? && Compiles(args[0].v.matches, w)
    case Bin(op, left, right) =>
      && (IsArithmetic(op) || IsComparison(op))
      && ((right.Num? && Supported(left, w)) || (left.Num? && Supported(right, w)))
  }

  lemma AggrIff(op: string, phi: Option<real>, labs: seq<string>, arg: Node, p: Params, w: World)
    ensures LowerAggr(op, phi, labs, arg, p, w).Some? <==> IsAggrName(op) && (op == "quantile" ==> phi.Some?) && SelectorOk(arg, w)
  {
    hide FindSelector, Clauses, Compiles;
    if FindSelector(arg).Some? {
      ClausesIff(FindSelector(arg).value.matches, w);
    }
  }

  lemma CallIff(name: string, args: seq<Node>, p: Params, w: World)
    ensures LowerCall(name, args, p, w).Some? <==> Supported(Call(name, args), w)
  {
    hide LowerAggr, Clauses, Compiles;
    if |args| == 1 && args[0].Range? {
      ClausesIff(args[0].v.matches, w);
      forall op { AggrIff(op, None, [], Vector(args[0].v), p, w); }
    }
    if |args| == 2 && args[0].Num? && args[1].Range? {
      AggrIff("quantile", Some(args[0].value), [], Vector(args[1].v), p, w);
    }
  }

  /** A tree is translated exactly when it is supported. */
  lemma {:induction false} LowerIff(n: Node, p: Params, w: World)
    ensures Lower(n, p, w).Some? <==> Supported(n, w)
  {
    hide LowerAggr, LowerCall, Compiles;
    match n
    case Aggr(op, arg, labs, _, phi) => AggrIff(op, phi, labs, arg, p, w);
    case Call(name, args) => CallIff(name, args, p, w);
    case Vector(v) => AggrIff("avg", None, [], n, p, w);
    case Range(v, _, _) => AggrIff("avg", None, [], Vector(v), p, w);
    case Bin(op, left, right) => LowerIff(left, p, w); LowerIff(right, p, w);
    case Num(_) =>
  }

  /** A call inside an aggregation contributes its selector only: its own function is dropped. */
  lemma NestedCallIsDropped(op: string, phi: Option<real>, labs: seq<string>, f: string, arg: Node, p: Params, w: World)
    ensures LowerAggr(op, phi, labs, Call(f, [arg]), p, w) == LowerAggr(op, phi, labs, arg, p, w)
  {
    hide Clauses, AggrText;
  }

  // ---------- from text to rows ----------

  function TranslateText(src: string, pf: ParseFloat, p: Params, w: World): Option<PromqlTranslate.Result> {
    match ParseText(src, pf)
    case None => None
    case Some(n) => Lower(n, p, w)
  }

  /** Printing a supported tree, tokenizing, parsing, lowering and running the SQL gives its rows. */
  lemma TextMeans(n: Node, pf: ParseFloat, fmt: FormatFloat, p: Params, w: World, db: Database)
    requires WellFormed(n, pf, fmt) && Writable(n, fmt) && Supported(n, w)
    ensures var r := TranslateText(PrintText(n, fmt), pf, p, w);
            r.Some? && RowsOf(r.value.sql, r.value.args, db) == Some(Meaning(n, p, w, db))
  {
    hide WellFormed, Writable, Supported, Lower, RowsOf, Meaning, PrintText, ParseText;
    ParseTextPrinted(n, pf, fmt);
    LowerIff(n, p, w);
    LoweredMeans(n, p, w, db);
  }
}
