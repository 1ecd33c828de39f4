/** The ObserveQL syntax tree (pkg/observeql/ast.go); a nil pointer is None. The generated parser
    that builds it is not part of this model. */
module ObserveqlAst {
  import opened Optional

  datatype Value = Value(str: Option<string>, num: Option<real>, ident: Option<string>)

  datatype Pred = Pred(lhs: Value, op: string, rhs: Value)

  datatype Cmp = Cmp(not: Option<Cmp>, group: Option<Expr>, pred: Option<Pred>)

  datatype AndExpr = AndExpr(left: Cmp, right: seq<Cmp>)

  datatype OrExpr = OrExpr(left: AndExpr, right: seq<AndExpr>)

  datatype Expr = Expr(disjunction: OrExpr)

  datatype FuncCall = FuncCall(name: string, star: bool, arg: Option<string>)

  datatype Column = Column(fn: Option<FuncCall>, name: Option<string>)

  datatype Query = Query(
    star: bool,
    columns: seq<Column>,
    source: string,
    filter: Option<Expr>,
    groupBy: Option<seq<string>>,
    since: Option<string>,
    limit: Option<int>)
}
