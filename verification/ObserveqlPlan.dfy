/** `PlanQuery` (pkg/observeql/planner.go): the whole statement, its parameters, and what they
    mean together. Lower-casing and duration parsing are library calls, taken as parameters;
    so is the clock. */
module ObserveqlPlan {
  import opened Optional
  import opened ObserveqlAst
  import opened SqlWhere
  import opened ObserveqlPlanner

  type ToLower = string -> string
  type ParseDuration = string -> Option<int>

  const MetricColumns: set<string> := {"tenant_id", "metric_name", "timestamp", "value", "labels", "received_at"}
  const LogColumns: set<string> :=
    {"tenant_id", "service_name", "severity", "body", "attributes", "timestamp", "trace_id", "span_id"}
  const TraceColumns: set<string> :=
    {"tenant_id", "trace_id", "span_id", "parent_span_id", "operation_name", "service_name",
     "start_time", "end_time", "duration_ns", "attributes", "status_code"}

  predicate IsSource(s: string) {
    s in {"metrics", "logs", "traces"}
  }

  function AllowedColumns(source: string): set<string> {
    if source == "metrics" then MetricColumns else if source == "logs" then LogColumns else TraceColumns
  }

  function TimeColumn(source: string): string {
    if source == "traces" then "start_time" else "timestamp"
  }

  const AllowedFunctions: set<string> := {"count", "avg", "sum", "min", "max"}

  const HOUR: int := 3_600_000_000_000

  datatype Options = Options(tenantID: string, maxRowLimit: int, defaultSince: int) {
    function WithDefaults(): Options {
      Options(tenantID,
              if maxRowLimit <= 0 then 10_000 else maxRowLimit,
              if defaultSince <= 0 then HOUR else defaultSince)
    }
  }

  datatype Plan = Plan(sql: seq<Lexeme>, params: seq<Param>, source: string, groupBy: seq<string>, limit: int)

  datatype Outcome = Planned(plan: Plan) | Failed

  // ---------- specification ----------

  function RenderColumn(c: Column, allowed: set<string>, toLower: ToLower): Option<seq<Lexeme>> {
    if c.name.Some? then
      if c.name.value in allowed then Some([Name(c.name.value)]) else None
    else if c.fn.Some? then
      var fn := toLower(c.fn.value.name);
      if fn !in AllowedFunctions then None
      else if c.fn.value.star then Some([Word(fn), Open, Word("*"), Close])
      else if c.fn.value.arg.None? || c.fn.value.arg.value !in allowed then None
      else Some([Word(fn), Open, Name(c.fn.value.arg.value), Close])
    else None
  }

  /** Comma-separated columns. */
  function RenderColumns(cs: seq<Column>, allowed: set<string>, toLower: ToLower): Option<seq<Lexeme>> {
    if cs == [] then Some([])
    else
      var front := RenderColumns(cs[..|cs| - 1], allowed, toLower);
      var last := RenderColumn(cs[|cs| - 1], allowed, toLower);
      if front.None? || last.None? then None
      else Some(if |cs| == 1 then last.value else front.value + [Comma] + last.value)
  }

  function RenderSelect(q: Query, allowed: set<string>, toLower: ToLower): Option<seq<Lexeme>> {
    if q.star then Some([Word("*")]) else RenderColumns(q.columns, allowed, toLower)
  }

  function NameList(names: seq<string>): seq<Lexeme> {
    if names == [] then []
    else if |names| == 1 then [Name(names[0])]
    else NameList(names[..|names| - 1]) + [Comma, Name(names[|names| - 1])]
  }

  /** The conjunction after WHERE, and the parameters its placeholders take. */
  function WhereClause(q: Query, tenant: string, cutoff: int): Rendered {
    var head := [Name("tenant_id"), Op("="), Lexeme.Hole];
    var tail := [And, Name(TimeColumn(q.source)), Op(">="), Lexeme.Hole];
    if q.filter.None? then Done(head + tail, [StrParam(tenant), TimeParam(cutoff)])
    else
      match RenderOr(q.filter.value.disjunction, AllowedColumns(q.source))
      case Refused => Refused
      case Done(expr, ps) =>
        Done(head + [And] + ([Open] + expr + [Close]) + tail, [StrParam(tenant)] + ps + [TimeParam(cutoff)])
  }

  function RowLimit(q: Query, cap: int): (n: int)
    ensures n <= cap
    ensures cap > 0 ==> n > 0
  {
    if q.limit.Some? && 0 < q.limit.value < cap then q.limit.value else cap
  }

  function GroupColumns(q: Query): seq<string> {
    if q.groupBy.Some? then q.groupBy.value else []
  }

  function Head(q: Query, select: seq<Lexeme>): seq<Lexeme> {
    [Word("SELECT")] + select + [Word("FROM"), Name(q.source), Word("WHERE")]
  }

  function Tail(q: Query): seq<Lexeme> {
    (if GroupColumns(q) == [] then [] else [Word("GROUP BY")] + NameList(GroupColumns(q)))
    + [Word("ORDER BY"), Name(TimeColumn(q.source)), Word("DESC"), Word("LIMIT"), Lexeme.Hole]
  }

  function Since(q: Query, defaultSince: int, pd: ParseDuration): Option<int> {
    if q.since.None? then Some(defaultSince) else pd(q.since.value)
  }

  function PlanSpec(q: Query, options: Options, now: int, toLower: ToLower, pd: ParseDuration): Outcome {
    var opts := options.WithDefaults();
    var allowed := AllowedColumns(q.source);
    if opts.tenantID == "" || !IsSource(q.source) then Failed
    else
      var select := RenderSelect(q, allowed, toLower);
      var since := Since(q, opts.defaultSince, pd);
      if select.None? || since.None? || exists g <- GroupColumns(q) :: g !in allowed then Failed
      else
        match WhereClause(q, opts.tenantID, now - since.value)
        case Refused => Failed
        case Done(cond, ps) =>
          var limit := RowLimit(q, opts.maxRowLimit);
          Planned(Plan(Head(q, select.value) + cond + Tail(q), ps + [IntParam(limit)], q.source, GroupColumns(q), limit))
  }

  // ---------- the planner ----------

  class ParamList {
    var items: seq<Param>

    constructor (first: Param)
      ensures items == [first]
    {
      items := [first];
    }

    /** A method's text and the parameters it appended are what the rendering function gives. */
    ghost predicate Appended(before: seq<Param>, r: Option<seq<Lexeme>>, spec: Rendered)
      reads this
    {
      match spec
      case Done(sql, ps) => r == Some(sql) && items == before + ps
      case Refused => r.None?
    }
  }

  method EmitValue(v: Value, allowed: set<string>, params: ParamList) returns (r: Option<seq<Lexeme>>)
    modifies params
    ensures params.Appended(old(params.items), r, RenderValue(v, allowed))
  {
    if v.ident.Some? {
      return if v.ident.value in allowed then Some([Name(v.ident.value)]) else None;
    } else if v.str.Some? {
      params.items := params.items + [StrParam(v.str.value)];
      return Some([Lexeme.Hole]);
    } else if v.num.Some? {
      params.items := params.items + [NumParam(v.num.value)];
      return Some([Lexeme.Hole]);
    }
    return None;
  }

  method EmitPredicate(p: Pred, allowed: set<string>, params: ParamList) returns (r: Option<seq<Lexeme>>)
    modifies params
    ensures params.Appended(old(params.items), r, RenderPredicate(p, allowed))
  {
    var lhs := EmitValue(p.lhs, allowed, params);
    if lhs.None? {
      return None;
    }
    var rhs := EmitValue(p.rhs, allowed, params);
    if rhs.None? {
      return None;
    }
    return Some(lhs.value + [Op(NormaliseOp(p.op))] + rhs.value);
  }

  method EmitCmp(c: Cmp, allowed: set<string>, params: ParamList) returns (r: Option<seq<Lexeme>>)
    modifies params
    ensures params.Appended(old(params.items), r, RenderCmp(c, allowed))
    decreases c, 0
  {
    if c.not.Some? {
      var inner := EmitCmp(c.not.value, allowed, params);
      return if inner.None? then None else Some([Not, Open] + inner.value + [Close]);
    }
    if c.group.Some? {
      var inner := EmitOr(c.group.value.disjunction, allowed, params);
      return if inner.None? then None else Some([Open] + inner.value + [Close]);
    }
    if c.pred.None? {
      return None;
    }
    r := EmitPredicate(c.pred.value, allowed, params);
  }

  method EmitAnd(a: AndExpr, allowed: set<string>, params: ParamList) returns (r: Option<seq<Lexeme>>)
    modifies params
    ensures params.Appended(old(params.items), r, RenderAnd(a, allowed))
    decreases a, 0
  {
    ghost var before := params.items;
    r := EmitCmp(a.left, allowed, params);
    if r.None? {
      return;
    }
    ghost var ps := RenderCmp(a.left, allowed).params;
    var i := 0;
    while i < |a.right|
      invariant 0 <= i <= |a.right| && r.Some? && params.items == before + ps
      invariant AndRest(r.value, ps, a.right[i..], allowed) == RenderAnd(a, allowed)
    {
      assert a.right[i..][0] == a.right[i] && a.right[i..][1..] == a.right[i + 1..];
      var right := EmitCmp(a.right[i], allowed, params);
      if right.None? {
        return None;
      }
      ghost var rp := RenderCmp(a.right[i], allowed).params;
      assert before + ps + rp == before + (ps + rp);
      r := Some([Open] + r.value + [And] + right.value + [Close]);
      ps := ps + rp;
      i := i + 1;
    }
  }

  method EmitOr(o: OrExpr, allowed: set<string>, params: ParamList) returns (r: Option<seq<Lexeme>>)
    modifies params
    ensures params.Appended(old(params.items), r, RenderOr(o, allowed))
    decreases o, 0
  {
    ghost var before := params.items;
    r := EmitAnd(o.left, allowed, params);
    if r.None? {
      return;
    }
    ghost var ps := RenderAnd(o.left, allowed).params;
    var i := 0;
    while i < |o.right|
      invariant 0 <= i <= |o.right| && r.Some? && params.items == before + ps
      invariant OrRest(r.value, ps, o.right[i..], allowed) == RenderOr(o, allowed)
    {
      assert o.right[i..][0] == o.right[i] && o.right[i..][1..] == o.right[i + 1..];
      var right := EmitAnd(o.right[i], allowed, params);
      if right.None? {
        return None;
      }
      ghost var rp := RenderAnd(o.right[i], allowed).params;
      assert before + ps + rp == before + (ps + rp);
      r := Some([Open] + r.value + [Or] + right.value + [Close]);
      ps := ps + rp;
      i := i + 1;
    }
  }

  method EmitColumns(cs: seq<Column>, allowed: set<string>, toLower: ToLower) returns (r: Option<seq<Lexeme>>)
    ensures r == RenderColumns(cs, allowed, toLower)
  {
    var out: seq<Lexeme> := [];
    var i := 0;
    while i < |cs|
      invariant 0 <= i <= |cs|
      invariant RenderColumns(cs[..i], allowed, toLower) == Some(out)
    {
      var c := RenderColumn(cs[i], allowed, toLower);
      assert cs[..i + 1][..i] == cs[..i];
      if c.None? {
        ColumnsRefused(cs, i + 1, allowed, toLower);
        return None;
      }
      out := if i == 0 then c.value else out + [Comma] + c.value;
      i := i + 1;
    }
    assert cs[..i] == cs;
    return Some(out);
  }

  lemma {:induction false} ColumnsRefused(cs: seq<Column>, i: nat, allowed: set<string>, toLower: ToLower)
    requires i <= |cs| && RenderColumns(cs[..i], allowed, toLower).None?
    ensures RenderColumns(cs, allowed, toLower).None?
    decreases |cs| - i
  {
    if i == |cs| {
      assert cs[..i] == cs;
    } else {
      assert cs[..i + 1][..i] == cs[..i];
      ColumnsRefused(cs, i + 1, allowed, toLower);
    }
  }

  method PlanQuery(q: Query, options: Options, now: int, toLower: ToLower, pd: ParseDuration) returns (r: Outcome)
    ensures r == PlanSpec(q, options, now, toLower, pd)
  {
    hide AllowedColumns, IsSource, RenderColumns, RenderOr, TimeColumn;
    var opts := options.WithDefaults();
    if opts.tenantID == "" {
      return Failed;
    }
    if !IsSource(q.source) {
      return Failed;
    }
    var allowed := AllowedColumns(q.source);
    var select := Some([Word("*")]);
    if !q.star {
      select := EmitColumns(q.columns, allowed, toLower);
      if select.None? {
        return Failed;
      }
    }
    var cond := [Name("tenant_id"), Op("="), Lexeme.Hole];
    var params := new ParamList(StrParam(opts.tenantID));
    if q.filter.Some? {
      var expr := EmitOr(q.filter.value.disjunction, allowed, params);
      if expr.None? {
        return Failed;
      }
      cond := cond + [And] + ([Open] + expr.value + [Close]);
    }
    var since := Since(q, opts.defaultSince, pd);
    if since.None? {
      return Failed;
    }
    cond := cond + [And, Name(TimeColumn(q.source)), Op(">="), Lexeme.Hole];
    params.items := params.items + [TimeParam(now - since.value)];
    assert WhereClause(q, opts.tenantID, now - since.value) == Done(cond, params.items);
    var groupCols: seq<string> := [];
    if q.groupBy.Some? {
      var i := 0;
      while i < |q.groupBy.value|
        invariant 0 <= i <= |q.groupBy.value| && groupCols == q.groupBy.value[..i]
        invariant forall g <- groupCols :: g in allowed
      {
        var col := q.groupBy.value[i];
        if col !in allowed {
          return Failed;
        }
        groupCols := groupCols + [col];
        i := i + 1;
      }
    }
    assert groupCols == GroupColumns(q);
    var limit := opts.maxRowLimit;
    if q.limit.Some? && q.limit.value > 0 {
      if q.limit.value < limit {
        limit := q.limit.value;
      }
    }
    params.items := params.items + [IntParam(limit)];
    return Planned(Plan(Head(q, select.value) + cond + Tail(q), params.items, q.source, groupCols, limit));
  }

  // ---------- what a plan means ----------

  lemma NoHoles(ts: seq<Lexeme>)
    requires Lexeme.Hole !in ts
    ensures CountHoles(ts) == 0
  {}

  lemma {:induction false} HolesOfRest(left: seq<Lexeme>, ps: seq<Param>, rights: seq<Cmp>, allowed: set<string>)
    requires CountHoles(left) == |ps|
    ensures var r := AndRest(left, ps, rights, allowed); r.Done? ==> CountHoles(r.sql) == |r.params|
    decreases rights, 0
  {
    if rights != [] {
      CmpHoles(rights[0], allowed);
      match RenderCmp(rights[0], allowed)
      case Refused =>
      case Done(right, rp) =>
        JoinHoles(left, And, right);
        HolesOfRest([Open] + left + [And] + right + [Close], ps + rp, rights[1..], allowed);
    }
  }

  lemma {:induction false} HolesOfOrRest(left: seq<Lexeme>, ps: seq<Param>, rights: seq<AndExpr>, allowed: set<string>)
    requires CountHoles(left) == |ps|
    ensures var r := OrRest(left, ps, rights, allowed); r.Done? ==> CountHoles(r.sql) == |r.params|
    decreases rights, 0
  {
    if rights != [] {
      AndHoles(rights[0], allowed);
      match RenderAnd(rights[0], allowed)
      case Refused =>
      case Done(right, rp) =>
        JoinHoles(left, Or, right);
        HolesOfOrRest([Open] + left + [Or] + right + [Close], ps + rp, rights[1..], allowed);
    }
  }

  lemma JoinHoles(l: seq<Lexeme>, op: Lexeme, r: seq<Lexeme>)
    requires op != Lexeme.Hole
    ensures CountHoles([Open] + l + [op] + r + [Close]) == CountHoles(l) + CountHoles(r)
  {
    CountHolesConcat([Open] + l + [op] + r, [Close]);
    CountHolesConcat([Open] + l + [op], r);
    CountHolesConcat([Open] + l, [op]);
    CountHolesConcat([Open], l);
  }

  lemma WrapHoles(l: seq<Lexeme>)
    ensures CountHoles([Open] + l + [Close]) == CountHoles(l)
    ensures CountHoles([Not, Open] + l + [Close]) == CountHoles(l)
  {
    CountHolesConcat([Open] + l, [Close]);
    CountHolesConcat([Open], l);
    CountHolesConcat([Not, Open] + l, [Close]);
    CountHolesConcat([Not, Open], l);
  }

  /** Placeholders and parameters match one to one in every rendered condition. */
  lemma {:induction false} CmpHoles(c: Cmp, allowed: set<string>)
    ensures var r := RenderCmp(c, allowed); r.Done? ==> CountHoles(r.sql) == |r.params|
    decreases c, 0
  {
    if c.not.Some? {
      CmpHoles(c.not.value, allowed);
      var inner := RenderCmp(c.not.value, allowed);
      if inner.Done? { WrapHoles(inner.sql); }
    } else if c.group.Some? {
      OrHoles(c.group.value.disjunction, allowed);
      var inner := RenderOr(c.group.value.disjunction, allowed);
      if inner.Done? { WrapHoles(inner.sql); }
    } else if c.pred.Some? {
      var l, r := RenderValue(c.pred.value.lhs, allowed), RenderValue(c.pred.value.rhs, allowed);
      if l.Done? && r.Done? {
        CountHolesConcat(l.sql + [Op(NormaliseOp(c.pred.value.op))], r.sql);
        CountHolesConcat(l.sql, [Op(NormaliseOp(c.pred.value.op))]);
      }
    }
  }

  lemma {:induction false} AndHoles(a: AndExpr, allowed: set<string>)
    ensures var r := RenderAnd(a, allowed); r.Done? ==> CountHoles(r.sql) == |r.params|
    decreases a, 0
  {
    CmpHoles(a.left, allowed);
    match RenderCmp(a.left, allowed)
    case Refused =>
    case Done(left, ps) => HolesOfRest(left, ps, a.right, allowed);
  }

  lemma {:induction false} OrHoles(o: OrExpr, allowed: set<string>)
    ensures var r := RenderOr(o, allowed); r.Done? ==> CountHoles(r.sql) == |r.params|
    decreases o, 0
  {
    AndHoles(o.left, allowed);
    match RenderAnd(o.left, allowed)
    case Refused =>
    case Done(left, ps) => HolesOfOrRest(left, ps, o.right, allowed);
  }

  lemma {:induction false} SelectHoles(cs: seq<Column>, allowed: set<string>, toLower: ToLower)
    ensures var r := RenderColumns(cs, allowed, toLower); r.Some? ==> CountHoles(r.value) == 0
  {
    if cs != [] {
      var n := |cs| - 1;
      SelectHoles(cs[..n], allowed, toLower);
      var front, last := RenderColumns(cs[..n], allowed, toLower), RenderColumn(cs[n], allowed, toLower);
      if front.Some? && last.Some? {
        NoHoles(last.value);
        CountHolesConcat(front.value, [Comma]);
        CountHolesConcat(front.value + [Comma], last.value);
      }
    }
  }

  lemma {:induction false} NameListHoles(names: seq<string>)
    ensures CountHoles(NameList(names)) == 0
  {
    if |names| > 1 {
      NameListHoles(names[..|names| - 1]);
      NoHoles([Comma, Name(names[|names| - 1])]);
      CountHolesConcat(NameList(names[..|names| - 1]), [Comma, Name(names[|names| - 1])]);
    }
  }

  lemma TailHoles(q: Query)
    ensures CountHoles(Tail(q)) == 1
    ensures Tail(q) != [] && Tail(q)[0].Word?
  {
    var group := if GroupColumns(q) == [] then [] else [Word("GROUP BY")] + NameList(GroupColumns(q));
    var order := [Word("ORDER BY"), Name(TimeColumn(q.source)), Word("DESC"), Word("LIMIT"), Lexeme.Hole];
    NameListHoles(GroupColumns(q));
    CountHolesConcat([Word("GROUP BY")], NameList(GroupColumns(q)));
    CountHolesConcat(group, order);
    assert CountHoles(order[4..]) == 1 && CountHoles(order[2..]) == 1;
  }

  lemma HeadHoles(q: Query, allowed: set<string>, toLower: ToLower)
    ensures var r := RenderSelect(q, allowed, toLower); r.Some? ==> CountHoles(Head(q, r.value)) == 0
  {
    hide RenderColumns;
    var r := RenderSelect(q, allowed, toLower);
    if r.Some? {
      SelectHoles(q.columns, allowed, toLower);
      CountHolesConcat([Word("SELECT")], r.value);
      NoHoles([Word("FROM"), Name(q.source), Word("WHERE")]);
      NoHoles([Word("*")]);
      CountHolesConcat([Word("SELECT")] + r.value, [Word("FROM"), Name(q.source), Word("WHERE")]);
    }
  }

  lemma WhereHoles(q: Query, tenant: string, cutoff: int)
    ensures var r := WhereClause(q, tenant, cutoff); r.Done? ==> CountHoles(r.sql) == |r.params|
  {
    hide RenderOr;
    var head := [Name("tenant_id"), Op("="), Lexeme.Hole];
    var tail := [And, Name(TimeColumn(q.source)), Op(">="), Lexeme.Hole];
    assert CountHoles(head[2..]) == 1 && CountHoles(tail[2..]) == 1;
    if q.filter.None? {
      CountHolesConcat(head, tail);
    } else {
      OrHoles(q.filter.value.disjunction, AllowedColumns(q.source));
      match RenderOr(q.filter.value.disjunction, AllowedColumns(q.source))
      case Refused =>
      case Done(expr, ps) =>
        WrapHoles(expr);
        CountHolesConcat(head, [And]);
        CountHolesConcat(head + [And], [Open] + expr + [Close]);
        CountHolesConcat(head + [And] + ([Open] + expr + [Close]), tail);
    }
  }

  /** The two conditions the planner adds. */
  ghost function TenantTruth<V>(tenant: string, db: Db<Param, V>): Truth {
    db.compare("=", db.col("tenant_id"), db.lit(StrParam(tenant)))
  }

  ghost function TimeTruth<V>(q: Query, cutoff: int, db: Db<Param, V>): Truth {
    db.compare(">=", db.col(TimeColumn(q.source)), db.lit(TimeParam(cutoff)))
  }

  /** The user's condition; an absent one holds. */
  ghost function UserTruth<V>(q: Query, db: Db<Param, V>): Truth
    requires FilterOk(q)
  {
    if q.filter.None? then True else OrMeaning(q.filter.value.disjunction, AllowedColumns(q.source), db)
  }

  predicate FilterOk(q: Query) {
    q.filter.Some? ==> OrOk(q.filter.value.disjunction, AllowedColumns(q.source))
  }

  /** A conjunction of two conditions at the top level, read from placeholder `k`. */
  lemma ReadTwo<V>(l: seq<Lexeme>, lp: seq<Param>, lt: Truth, r: seq<Lexeme>, rp: seq<Param>, rt: Truth, db: Db<Param, V>,
                   after: seq<Lexeme>, all: seq<Param>)
    requires Denotes(l, lp, lt, db) && Denotes(r, rp, rt, db)
    requires |lp + rp| <= |all| && all[..|lp + rp|] == lp + rp
    ensures var p := ParseAnd(l + ([And] + (r + after)), 0);
            exists c :: p == AndLoop(c, after, |lp + rp|) && Bound(c, |lp + rp|) && Bound(c, |all|)
                        && Eval(c, all, db) == And3(lt, rt)
  {
    hide Denotes, ParseNot, ParseAnd, AndLoop;
    ReadPair(l, lp, lt, r, rp, rt, db, And, after, 0, all);
    var inner := l + ([And] + (r + after));
    var a, b := ParseNot(inner, 0), ParseNot(r + after, |lp|);
    AndFirst(inner, 0, a.value, [And] + (r + after), |lp|);
    AndStep(a.value, r + after, |lp|, b.value, after, b.next);
    assert Bound(Conj(a.value, b.value), |all|);
  }

  ghost predicate WhereReads<V>(sql: seq<Lexeme>, n: nat, t: Truth, after: seq<Lexeme>, all: seq<Param>, db: Db<Param, V>) {
    var r := ParseOr(sql + after, 0);
    r.Ok? && r.rest == after && r.next == n && Bound(r.value, |all|) && Eval(r.value, all, db) == t
  }

  /** The two conditions the planner adds, as lexemes. */
  lemma OwnConditions<V>(tenant: string, timeCol: string, cutoff: int, db: Db<Param, V>)
    ensures Denotes([Name("tenant_id"), Op("="), Lexeme.Hole], [StrParam(tenant)], TenantTruth(tenant, db), db)
    ensures Denotes([Name(timeCol), Op(">="), Lexeme.Hole], [TimeParam(cutoff)],
                    db.compare(">=", db.col(timeCol), db.lit(TimeParam(cutoff))), db)
  {}

  lemma TwoConjuncts<V>(l: seq<Lexeme>, lp: seq<Param>, lt: Truth, r: seq<Lexeme>, rp: seq<Param>, rt: Truth, db: Db<Param, V>,
                        after: seq<Lexeme>, all: seq<Param>)
    requires Denotes(l, lp, lt, db) && Denotes(r, rp, rt, db)
    requires lp + rp <= all && !At(after, And) && !At(after, Or)
    ensures WhereReads(l + ([And] + r), |lp + rp|, And3(lt, rt), after, all, db)
  {
    hide Denotes, ParseNot, ParseAnd, ParseOr, AndLoop, Bound, Eval, At;
    ReadTwo(l, lp, lt, r, rp, rt, db, after, all);
    var ts := l + ([And] + (r + after));
    var c :| ParseAnd(ts, 0) == AndLoop(c, after, |lp + rp|) && Bound(c, |lp + rp|) && Bound(c, |all|)
             && Eval(c, all, db) == And3(lt, rt);
    FinishWhere(ts, c, after, |lp + rp|);
    assert l + ([And] + r) + after == ts;
  }

  lemma ThreeConjuncts<V>(l: seq<Lexeme>, lp: seq<Param>, lt: Truth, m: seq<Lexeme>, mp: seq<Param>, mt: Truth,
                          r: seq<Lexeme>, rp: seq<Param>, rt: Truth, db: Db<Param, V>, after: seq<Lexeme>, all: seq<Param>)
    requires Denotes(l, lp, lt, db) && Denotes(m, mp, mt, db) && Denotes(r, rp, rt, db)
    requires lp + mp + rp <= all && !At(after, And) && !At(after, Or)
    ensures WhereReads(l + ([And] + m) + ([And] + r), |lp + mp + rp|, And3(And3(lt, mt), rt), after, all, db)
  {
    hide Denotes, ParseNot, ParseAnd, ParseOr, AndLoop, Bound, Eval, At, And3;
    var two := lp + mp;
    assert all[..|two|] == two && all[|two|..|two| + |rp|] == rp;
    var more := [And] + (r + after);
    ReadTwo(l, lp, lt, m, mp, mt, db, more, all);
    var ts := l + ([And] + (m + more));
    var c :| ParseAnd(ts, 0) == AndLoop(c, more, |two|) && Bound(c, |two|) && Bound(c, |all|)
             && Eval(c, all, db) == And3(lt, mt);
    ThirdConjunct(c, r, rp, rt, db, after, all, |two|);
    var d := ParseNot(r + after, |two|).value;
    FinishWhere(ts, Conj(c, d), after, |two| + |rp|);
    assert l + ([And] + m) + ([And] + r) + after == ts;
  }

  /** The WHERE text, reparsed with its placeholders bound left to right, is the conjunction of
      the tenant condition, the user's condition and the time bound. */
  lemma WhereMeans<V>(q: Query, tenant: string, cutoff: int, after: seq<Lexeme>, all: seq<Param>, db: Db<Param, V>)
    requires FilterOk(q)
    requires !At(after, And) && !At(after, Or)
    requires WhereClause(q, tenant, cutoff).Done? && WhereClause(q, tenant, cutoff).params <= all
    ensures var w := WhereClause(q, tenant, cutoff);
            WhereReads(w.sql, |w.params|, And3(And3(TenantTruth(tenant, db), UserTruth(q, db)), TimeTruth(q, cutoff, db)), after, all, db)
  {
    hide Denotes, RenderOr, OrMeaning, WhereReads, At, OrOk, AllowedColumns, TenantTruth;
    var w, timeCol := WhereClause(q, tenant, cutoff), TimeColumn(q.source);
    var t1, t3 := [Name("tenant_id"), Op("="), Lexeme.Hole], [Name(timeCol), Op(">="), Lexeme.Hole];
    OwnConditions(tenant, timeCol, cutoff, db);
    var tail := [And, Name(timeCol), Op(">="), Lexeme.Hole];
    assert [And] + t3 == tail;
    if q.filter.None? {
      assert [StrParam(tenant)] + [TimeParam(cutoff)] == w.params;
      TwoConjuncts(t1, [StrParam(tenant)], TenantTruth(tenant, db), t3, [TimeParam(cutoff)], TimeTruth(q, cutoff, db), db, after, all);
    } else {
      var o, allowed := q.filter.value.disjunction, AllowedColumns(q.source);
      OrDenotes(o, allowed, db);
      var expr := RenderOr(o, allowed);
      DenotesGroup(expr.sql, expr.params, OrMeaning(o, allowed, db), db);
      var group := [Open] + expr.sql + [Close];
      assert t1 + [And] + group + tail == t1 + ([And] + group) + tail;
      ThreeConjuncts(t1, [StrParam(tenant)], TenantTruth(tenant, db), group, expr.params, OrMeaning(o, allowed, db),
                     t3, [TimeParam(cutoff)], TimeTruth(q, cutoff, db), db, after, all);
    }
  }

  lemma FinishWhere(ts: seq<Lexeme>, c: Cond, after: seq<Lexeme>, n: nat)
    requires ParseAnd(ts, 0) == AndLoop(c, after, n) && !At(after, And) && !At(after, Or)
    ensures ParseOr(ts, 0) == Ok(c, after, n)
  {}

  lemma ThirdConjunct<V>(c: Cond, t3: seq<Lexeme>, ps: seq<Param>, t: Truth, db: Db<Param, V>,
          after: seq<Lexeme>, all: seq<Param>, k: nat)
    requires Denotes(t3, ps, t, db) && k + |ps| <= |all| && all[k..k + |ps|] == ps && Bound(c, |all|)
    ensures var d := ParseNot(t3 + after, k);
            && d.Ok? && AndLoop(c, [And] + (t3 + after), k) == AndLoop(Conj(c, d.value), after, k + |ps|)
            && Bound(Conj(c, d.value), |all|)
            && Eval(Conj(c, d.value), all, db) == And3(Eval(c, all, db), t)
  {
    assert ReadsAt(t3, ps, t, db, after, k, all);
    hide ParseNot, AndLoop;
    var d := ParseNot(t3 + after, k);
    AndStep(c, t3 + after, k, d.value, after, d.next);
  }

  lemma WhereRendered(q: Query, tenant: string, cutoff: int)
    ensures WhereClause(q, tenant, cutoff).Done? <==> FilterOk(q)
  {
    if q.filter.Some? {
      OrDenotes(q.filter.value.disjunction, AllowedColumns(q.source), Db(_ => 0, _ => 0, (_, _, _) => True));
    }
  }

  /** A plan exists exactly when the tenant and source are given, every column named is allowed
      for the source, every function is known, and the duration parses. */
  lemma PlanSucceeds(q: Query, options: Options, now: int, toLower: ToLower, pd: ParseDuration)
    ensures PlanSpec(q, options, now, toLower, pd).Planned? <==>
            && options.tenantID != "" && IsSource(q.source)
            && RenderSelect(q, AllowedColumns(q.source), toLower).Some?
            && Since(q, options.WithDefaults().defaultSince, pd).Some?
            && (forall g <- GroupColumns(q) :: g in AllowedColumns(q.source))
            && FilterOk(q)
  {
    hide IsSource, AllowedColumns, RenderSelect, WhereClause;
    var since := Since(q, options.WithDefaults().defaultSince, pd);
    if since.Some? {
      WhereRendered(q, options.tenantID, now - since.value);
    }
  }

  /** The main result about a plan: one parameter per placeholder, a row passes the WHERE clause
      exactly when it belongs to the tenant, satisfies the user's condition and is recent enough,
      and the last parameter is a row limit within the cap. */
  lemma PlanSelectsExactly<V>(q: Query, options: Options, now: int, toLower: ToLower, pd: ParseDuration, db: Db<Param, V>)
    requires PlanSpec(q, options, now, toLower, pd).Planned?
    ensures FilterOk(q)
    ensures var plan := PlanSpec(q, options, now, toLower, pd).plan;
            var opts := options.WithDefaults();
            var head := Head(q, RenderSelect(q, AllowedColumns(q.source), toLower).value);
            var cutoff := now - Since(q, opts.defaultSince, pd).value;
            && head <= plan.sql
            && var r := ParseOr(plan.sql[|head|..], 0);
            && r.Ok? && r.rest == Tail(q) && Bound(r.value, |plan.params|)
            && (Eval(r.value, plan.params, db) == True <==>
                  TenantTruth(options.tenantID, db) == True && UserTruth(q, db) == True && TimeTruth(q, cutoff, db) == True)
            && CountHoles(plan.sql) == |plan.params|
            && |plan.params| > 0 && plan.params[|plan.params| - 1] == IntParam(plan.limit)
            && 0 < plan.limit <= opts.maxRowLimit
            && (q.limit.Some? && q.limit.value > 0 ==> plan.limit <= q.limit.value)
  {
    hide IsSource, AllowedColumns, RenderSelect, WhereClause, ParseOr, Eval, Bound, Head, Tail, TenantTruth,
         TimeTruth, UserTruth, FilterOk;
    PlanSucceeds(q, options, now, toLower, pd);
    var opts := options.WithDefaults();
    var plan := PlanSpec(q, options, now, toLower, pd).plan;
    var select := RenderSelect(q, AllowedColumns(q.source), toLower).value;
    var head, tail := Head(q, select), Tail(q);
    var cutoff := now - Since(q, opts.defaultSince, pd).value;
    var w := WhereClause(q, options.tenantID, cutoff);
    TailHoles(q);
    HeadHoles(q, AllowedColumns(q.source), toLower);
    WhereHoles(q, options.tenantID, cutoff);
    CountHolesConcat(head, w.sql);
    CountHolesConcat(head + w.sql, tail);
    assert plan.sql[|head|..] == w.sql + tail;
    WhereMeans(q, options.tenantID, cutoff, tail, plan.params, db);
  }
}
