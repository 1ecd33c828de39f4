/** The SQL of a LogQL log query (pkg/logql/logql.go, translateLogs): one positional parameter per
    argument, in the order of the matchers, the line filters, and then start, end and limit. */
module LogqlSql {
  import opened Optional
  import opened Logql
  import opened LogqlPrinter
  import opened SqlText

  datatype Arg = Text(text: string) | Time(at: int) | Limit(rows: int)

  /** The library functions used. */
  datatype World = World(lower: string -> string, compiles: string -> bool)

  datatype Params = Params(start: Option<int>, end: Option<int>, limit: int)

  // ---------- the pieces ----------

  function ColumnFor(name: string, w: World): string {
    var l := w.lower(name);
    if l == "service" || l == "service_name" then "service_name"
    else if l == "severity" || l == "level" then "severity"
    else if l == "trace_id" || l == "traceid" then "trace_id"
    else if l == "span_id" || l == "spanid" then "span_id"
    else "attributes['" + SafeKey(name) + "']"
  }

  function MatcherSql(m: Matcher, w: World): Option<string> {
    var col := ColumnFor(m.name, w);
    if m.op == "=" then Some(col + " = ?")
    else if m.op == "!=" then Some(col + " != ?")
    else if m.op == "=~" then if w.compiles(m.val) then Some("match(" + col + ", ?)") else None
    else if m.op == "!~" then if w.compiles(m.val) then Some("NOT match(" + col + ", ?)") else None
    else None
  }

  function FilterSql(f: LineFilter, w: World): Option<string> {
    if f.op == "|=" then Some("positionCaseInsensitive(body, ?) > 0")
    else if f.op == "!=" then Some("positionCaseInsensitive(body, ?) = 0")
    else if f.op == "|~" then if w.compiles(f.val) then Some("match(body, ?)") else None
    else if f.op == "!~" then if w.compiles(f.val) then Some("NOT match(body, ?)") else None
    else None
  }

  lemma ColumnHasNoHole(name: string, w: World)
    ensures '?' !in ColumnFor(name, w)
  {}

  lemma MatcherHasOneHole(m: Matcher, w: World)
    requires MatcherSql(m, w).Some?
    ensures Holes(MatcherSql(m, w).value) == 1
  {
    var col := ColumnFor(m.name, w);
    ColumnHasNoHole(m.name, w);
    hide ColumnFor, Holes;
    if m.op == "=" {
      OneHole(col + " = ", "");
      assert col + " = " + "?" + "" == col + " = ?";
    } else if m.op == "!=" {
      OneHole(col + " != ", "");
      assert col + " != " + "?" + "" == col + " != ?";
    } else if m.op == "=~" {
      OneHole("match(" + col + ", ", ")");
      assert "match(" + col + ", " + "?" + ")" == "match(" + col + ", ?)";
    } else {
      OneHole("NOT match(" + col + ", ", ")");
      assert "NOT match(" + col + ", " + "?" + ")" == "NOT match(" + col + ", ?)";
    }
  }

  lemma FilterHasOneHole(f: LineFilter, w: World)
    requires FilterSql(f, w).Some?
    ensures Holes(FilterSql(f, w).value) == 1
  {
    hide Holes;
    if f.op == "|=" {
      OneHole("positionCaseInsensitive(body, ", ") > 0");
      assert "positionCaseInsensitive(body, " + "?" + ") > 0" == "positionCaseInsensitive(body, ?) > 0";
    } else if f.op == "!=" {
      OneHole("positionCaseInsensitive(body, ", ") = 0");
      assert "positionCaseInsensitive(body, " + "?" + ") = 0" == "positionCaseInsensitive(body, ?) = 0";
    } else if f.op == "|~" {
      OneHole("match(body, ", ")");
      assert "match(body, " + "?" + ")" == "match(body, ?)";
    } else {
      OneHole("NOT match(body, ", ")");
      assert "NOT match(body, " + "?" + ")" == "NOT match(body, ?)";
    }
  }

  // ---------- the query ----------

  datatype Query = Query(sql: string, args: seq<Arg>)

  const HEAD := "SELECT timestamp, severity, " + "service_name, body, trace_id, " + "span_id, attributes " + "FROM logs WHERE "
  const TAIL := " ORDER BY timestamp DESC LIMIT ?"

  function MatcherClauses(ms: seq<Matcher>, w: World): Option<seq<string>> {
    if ms == [] then Some([])
    else
      match (MatcherClauses(ms[..|ms| - 1], w), MatcherSql(ms[|ms| - 1], w))
      case (Some(cs), Some(c)) => Some(cs + [c])
      case _ => None
  }

  function FilterClauses(fs: seq<LineFilter>, w: World): Option<seq<string>> {
    if fs == [] then Some([])
    else
      match (FilterClauses(fs[..|fs| - 1], w), FilterSql(fs[|fs| - 1], w))
      case (Some(cs), Some(c)) => Some(cs + [c])
      case _ => None
  }

  /** The matched values, the filter values, then start, end and limit. */
  function Args(ms: seq<Matcher>, fs: seq<LineFilter>, start: int, end: int, limit: int): seq<Arg> {
    MatcherArgs(ms) + FilterArgs(fs) + [Time(start), Time(end), Limit(limit)]
  }

  function LogsSql(q: string, start: int, end: int, limit: int, w: World): Option<Query> {
    match SelectorOf(q)
    case None => None
    case Some((ms, rest)) =>
      match (MatcherClauses(ms, w), FiltersOf(rest))
      case (Some(cs), Some(fs)) =>
        (match FilterClauses(fs, w)
         case None => None
         case Some(ds) => Some(Query(HEAD + Join(cs + ds + [RANGE], " AND ") + TAIL, Args(ms, fs, start, end, limit))))
      case _ => None
  }

  function MatcherArgs(ms: seq<Matcher>): seq<Arg> {
    seq(|ms|, i requires 0 <= i < |ms| => Text(ms[i].val))
  }

  function FilterArgs(fs: seq<LineFilter>): seq<Arg> {
    seq(|fs|, i requires 0 <= i < |fs| => Text(fs[i].val))
  }

  method MatcherWheres(ms: seq<Matcher>, w: World) returns (wheres: Option<seq<string>>, args: seq<Arg>)
    ensures wheres == MatcherClauses(ms, w) && (wheres.Some? ==> args == MatcherArgs(ms))
  {
    hide MatcherSql;
    var out: seq<string> := [];
    args := [];
    for i := 0 to |ms|
      invariant MatcherClauses(ms[..i], w) == Some(out) && args == MatcherArgs(ms[..i])
    {
      assert ms[..i + 1][..i] == ms[..i];
      var clause := MatcherSql(ms[i], w);
      if clause == None {
        BadMatcher(ms, i + 1, w);
        return None, args;
      }
      out, args := out + [clause.value], args + [Text(ms[i].val)];
    }
    assert ms[..|ms|] == ms;
    wheres := Some(out);
  }

  method FilterWheres(fs: seq<LineFilter>, w: World) returns (wheres: Option<seq<string>>, args: seq<Arg>)
    ensures wheres == FilterClauses(fs, w) && (wheres.Some? ==> args == FilterArgs(fs))
  {
    hide FilterSql;
    var out: seq<string> := [];
    args := [];
    for i := 0 to |fs|
      invariant FilterClauses(fs[..i], w) == Some(out) && args == FilterArgs(fs[..i])
    {
      assert fs[..i + 1][..i] == fs[..i];
      var clause := FilterSql(fs[i], w);
      if clause == None {
        BadFilter(fs, i + 1, w);
        return None, args;
      }
      out, args := out + [clause.value], args + [Text(fs[i].val)];
    }
    assert fs[..|fs|] == fs;
    wheres := Some(out);
  }

  method TranslateLogs(q: string, start: int, end: int, limit: int, w: World) returns (r: Option<Query>)
    ensures r == LogsSql(q, start, end, limit, w)
  {
    hide SelectorOf, FiltersOf, MatcherClauses, FilterClauses, MatcherArgs, FilterArgs, Join;
    var parsed := ParseStreamSelector(q);
    if parsed == None {
      return None;
    }
    var (ms, rest) := parsed.value;
    var cs, args := MatcherWheres(ms, w);
    if cs == None {
      return None;
    }
    var fs := ParseLineFilters(rest);
    if fs == None {
      return None;
    }
    var ds, more := FilterWheres(fs.value, w);
    if ds == None {
      return None;
    }
    args := args + more + [Time(start), Time(end), Limit(limit)];
    var wheres := cs.value + ds.value + [RANGE];
    return Some(Query(HEAD + Join(wheres, " AND ") + TAIL, args));
  }

  lemma {:induction false} BadMatcher(ms: seq<Matcher>, k: nat, w: World)
    requires k <= |ms| && MatcherClauses(ms[..k], w) == None
    ensures MatcherClauses(ms, w) == None
  {
    hide MatcherSql;
    if k < |ms| {
      assert ms[..|ms| - 1][..k] == ms[..k];
      BadMatcher(ms[..|ms| - 1], k, w);
    } else {
      assert ms[..k] == ms;
    }
  }

  lemma {:induction false} BadFilter(fs: seq<LineFilter>, k: nat, w: World)
    requires k <= |fs| && FilterClauses(fs[..k], w) == None
    ensures FilterClauses(fs, w) == None
  {
    hide FilterSql;
    if k < |fs| {
      assert fs[..|fs| - 1][..k] == fs[..k];
      BadFilter(fs[..|fs| - 1], k, w);
    } else {
      assert fs[..k] == fs;
    }
  }

  // ---------- one parameter per argument ----------

  lemma {:induction false} MatcherClausesAreSingle(ms: seq<Matcher>, w: World)
    requires MatcherClauses(ms, w).Some?
    ensures Single(MatcherClauses(ms, w).value) && |MatcherClauses(ms, w).value| == |ms|
  {
    hide MatcherSql, Holes;
    if ms != [] {
      MatcherClausesAreSingle(ms[..|ms| - 1], w);
      MatcherHasOneHole(ms[|ms| - 1], w);
    }
  }

  lemma {:induction false} FilterClausesAreSingle(fs: seq<LineFilter>, w: World)
    requires FilterClauses(fs, w).Some?
    ensures Single(FilterClauses(fs, w).value) && |FilterClauses(fs, w).value| == |fs|
  {
    hide FilterSql, Holes;
    if fs != [] {
      FilterClausesAreSingle(fs[..|fs| - 1], w);
      FilterHasOneHole(fs[|fs| - 1], w);
    }
  }

  lemma TailHoles()
    ensures Holes(TAIL) == 1
  {
    OneHole(" ORDER BY timestamp DESC LIMIT ", "");
    hide Holes;
    assert " ORDER BY timestamp DESC LIMIT " + "?" + "" == TAIL;
  }

  lemma TwoWithoutHoles(a: string, b: string)
    requires Holes(a) == 0 && '?' !in b
    ensures Holes(a + b) == 0
  {
    NoHoles(b);
    HolesConcat(a, b);
  }

  lemma HeadHoles()
    ensures Holes(HEAD) == 0
  {
    hide Holes;
    var a, b, c := "SELECT timestamp, severity, ", "service_name, body, trace_id, ", "span_id, attributes ";
    NoHoles(a);
    TwoWithoutHoles(a, b);
    TwoWithoutHoles(a + b, c);
    TwoWithoutHoles(a + b + c, "FROM logs WHERE ");
  }

  /** Any log query that is translated has exactly one positional parameter per argument. */
  lemma OneHolePerArgument(q: string, start: int, end: int, limit: int, w: World)
    requires LogsSql(q, start, end, limit, w).Some?
    ensures var r := LogsSql(q, start, end, limit, w).value; Holes(r.sql) == |r.args|
  {
    hide SelectorOf, FiltersOf, MatcherClauses, FilterClauses, Holes, Join, Single;
    var (ms, rest) := SelectorOf(q).value;
    var fs := FiltersOf(rest).value;
    var cs, ds := MatcherClauses(ms, w).value, FilterClauses(fs, w).value;
    MatcherClausesAreSingle(ms, w);
    FilterClausesAreSingle(fs, w);
    SingleTogether(cs, ds);
    JoinAppend(cs + ds, RANGE, " AND ");
    RangeHoles();
    HeadHoles();
    TailHoles();
    var body := Join(cs + ds + [RANGE], " AND ");
    HolesConcat(HEAD, body);
    HolesConcat(HEAD + body, TAIL);
  }

  // ---------- the entry point ----------

  function SplitCall(s: string): Option<(string, string)> {
    var lparen := IndexOf(s, '(');
    if lparen == 0 || lparen == |s| then None
    else
      var name := TrimSpace(s[..lparen]);
      if exists c <- name :: !('a' <= c <= 'z' || 'A' <= c <= 'Z' || c == '_') then None
      else if s[|s| - 1] != ')' then None
      else Some((name, s[lparen + 1..|s| - 1]))
  }

  datatype Outcome = Rejected | Metric(name: string, body: string) | Logs(query: Query)

  const HOUR := 3_600_000_000_000

  function Translate(query: string, p: Params, now: int, w: World): Outcome {
    if query == "" then Rejected
    else
      var end := if p.end == None then now else p.end.value;
      var start := if p.start == None then end - HOUR else p.start.value;
      var limit := if p.limit <= 0 then 1000 else p.limit;
      var q := TrimSpace(query);
      match SplitCall(q)
      case Some((name, body)) => Metric(name, body)
      case None =>
        match LogsSql(q, start, end, limit, w)
        case None => Rejected
        case Some(r) => Logs(r)
  }

  lemma PrintedIsNoCall(ms: seq<Matcher>, fs: seq<LineFilter>)
    ensures SplitCall(Print(ms, fs)) == None && TrimSpace(Print(ms, fs)) == Print(ms, fs) != ""
  {
    var s := Print(ms, fs);
    PrintIsTight(ms, fs);
    TrimTight(s);
    var lparen := IndexOf(s, '(');
    if 0 < lparen < |s| {
      var head := s[..lparen];
      assert head[0] == '{' && TrimLeft(head) == head;
      TrimRightShape(head);
      TrimRightKeeps(head, 0);
      assert TrimSpace(head)[0] == '{';
      assert '{' in TrimSpace(head);
    }
  }

  /** A printed log query compiles to its own matchers and filters: the parameters are their values
      in order, then the time range and the limit, one per hole. */
  lemma TranslatePrinted(ms: seq<Matcher>, fs: seq<LineFilter>, p: Params, now: int, w: World)
    requires (forall m <- ms :: PlainMatcher(m) && '}' !in m.val) && (forall f <- fs :: PlainFilter(f))
    requires MatcherClauses(ms, w).Some? && FilterClauses(fs, w).Some?
    ensures var end := if p.end == None then now else p.end.value;
            var start := if p.start == None then end - HOUR else p.start.value;
            var r := Translate(Print(ms, fs), p, now, w);
            && r.Logs? && r.query.args == Args(ms, fs, start, end, if p.limit <= 0 then 1000 else p.limit)
            && Holes(r.query.sql) == |r.query.args|
  {
    hide PlainMatcher, PlainFilter, SelectorOf, FiltersOf, MatcherClauses, FilterClauses, Holes, Join, Print,
         TrimSpace, SplitCall, Args;
    PrintedIsNoCall(ms, fs);
    ScanPrinted(ms, fs);
    var end := if p.end == None then now else p.end.value;
    var start := if p.start == None then end - HOUR else p.start.value;
    OneHolePerArgument(Print(ms, fs), start, end, if p.limit <= 0 then 1000 else p.limit, w);
  }

  /** The clauses exist exactly when every regular expression compiles. */
  lemma {:induction false} ClausesIff(ms: seq<Matcher>, w: World)
    requires forall m <- ms :: PlainMatcher(m)
    ensures MatcherClauses(ms, w).Some? <==> forall m <- ms | m.op == "=~" || m.op == "!~" :: w.compiles(m.val)
  {
    if ms != [] {
      var before, m := ms[..|ms| - 1], ms[|ms| - 1];
      ClausesIff(before, w);
      MatcherSqlIff(m, w);
      hide MatcherSql, PlainMatcher;
      assert ms == before + [m];
    }
  }

  lemma MatcherSqlIff(m: Matcher, w: World)
    requires PlainMatcher(m)
    ensures MatcherSql(m, w).Some? <==> ((m.op == "=~" || m.op == "!~") ==> w.compiles(m.val))
  {}
}
