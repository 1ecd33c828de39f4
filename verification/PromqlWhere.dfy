/** Reading the innermost WHERE text of lowered PromQL: its conditions, each on the next bound
    arguments, let through exactly the points that the selector and the time range ask for. */
module PromqlWhere {
  import opened Optional
  import opened PromqlAst
  import opened PromqlTranslate
  import opened SqlText

  /** One stored sample. */
  datatype Point = Point(metric: string, attributes: map<string, string>, at: int, value: real)

  /** Whether a text matches a regular expression. */
  type Matching = (string, string) -> bool

  // ---------- reading the text ----------

  /** A condition; one on a label has the operator of the matcher it comes from. */
  datatype Test = MetricIs | Label(key: string, op: MatcherOp) | InRange

  const METRIC := "metric_name = ?"
  const ATTR := "attributes['"
  const MATCH := "match(attributes['"
  const NOMATCH := "NOT match(attributes['"

  /** The text before the next quote, and the text from the quote on. */
  function UpToQuote(s: string): (r: Option<(string, string)>)
    ensures r.Some? ==> |r.value.1| <= |s|
  {
    if s == "" then None
    else if s[0] == '\'' then Some(("", s))
    else
      match UpToQuote(s[1..])
      case None => None
      case Some((k, rest)) => Some(([s[0]] + k, rest))
  }

  /** A quoted key that is followed by `tail`. */
  function ReadKey(s: string, tail: string): (r: Option<(string, string)>)
    ensures r.Some? ==> |r.value.1| <= |s|
  {
    match UpToQuote(s)
    case None => None
    case Some((k, rest)) => if tail <= rest then Some((k, rest[|tail|..])) else None
  }

  function OnLabel(k: Option<(string, string)>, op: MatcherOp): Option<(Test, string)> {
    if k == None then None else Some((Label(k.value.0, op), k.value.1))
  }

  /** One condition and the text behind it. */
  function ReadTest(s: string): (r: Option<(Test, string)>)
    ensures r.Some? ==> |r.value.1| < |s|
  {
    if METRIC <= s then Some((MetricIs, s[|METRIC|..]))
    else if RANGE <= s then Some((InRange, s[|RANGE|..]))
    else if NOMATCH <= s then OnLabel(ReadKey(s[|NOMATCH|..], "'], ?)"), MatchNotRegex)
    else if MATCH <= s then OnLabel(ReadKey(s[|MATCH|..], "'], ?)"), MatchRegex)
    else if ATTR <= s then
      var equal := OnLabel(ReadKey(s[|ATTR|..], "'] = ?"), MatchEq);
      if equal.Some? then equal else OnLabel(ReadKey(s[|ATTR|..], "'] != ?"), MatchNeq)
    else None
  }

  const AND := " AND "

  function ReadTests(s: string): Option<seq<Test>>
    decreases |s|
  {
    match ReadTest(s)
    case None => None
    case Some((t, rest)) =>
      if rest == "" then Some([t])
      else if AND <= rest then
        match ReadTests(rest[|AND|..])
        case None => None
        case Some(ts) => Some([t] + ts)
      else None
  }

  // ---------- what the conditions say of a point ----------

  /** A map without the key gives the empty text. */
  function Attr(pt: Point, key: string): string {
    if key in pt.attributes then pt.attributes[key] else ""
  }

  function Arity(t: Test): nat {
    if t == InRange then 2 else 1
  }

  predicate Related(op: MatcherOp, have: string, want: string, re: Matching) {
    match op
    case MatchEq => have == want
    case MatchNeq => have != want
    case MatchRegex => re(have, want)
    case MatchNotRegex => !re(have, want)
  }

  predicate Holds(t: Test, args: seq<Arg>, pt: Point, re: Matching)
    requires |args| == Arity(t)
  {
    match t
    case MetricIs => args[0] == Text(pt.metric)
    case Label(k, op) => args[0].Text? && Related(op, Attr(pt, k), args[0].text, re)
    case InRange => args[0].Time? && args[1].Time? && args[0].at <= pt.at <= args[1].at
  }

  /** Every condition holds on its own arguments, taken from left to right with none left over. */
  predicate AllHold(ts: seq<Test>, args: seq<Arg>, pt: Point, re: Matching)
    decreases |ts|
  {
    if ts == [] then args == []
    else
      var n := Arity(ts[0]);
      |args| >= n && Holds(ts[0], args[..n], pt, re) && AllHold(ts[1..], args[n..], pt, re)
  }

  predicate TextHolds(wheres: string, args: seq<Arg>, pt: Point, re: Matching) {
    var ts := ReadTests(wheres);
    ts.Some? && AllHold(ts.value, args, pt, re)
  }

  // ---------- what the selector asks for ----------

  predicate Wanted(v: Selector, p: Params, pt: Point, re: Matching) {
    && pt.metric == v.metric
    && (forall m <- v.matches :: Related(m.op, Attr(pt, SafeKey(m.name)), m.val, re))
    && p.start <= pt.at <= p.end
  }

  // ---------- the two agree ----------

  lemma {:induction false} KeyRead(k: string, rest: string)
    requires '\'' !in k && rest != "" && rest[0] == '\''
    ensures UpToQuote(k + rest) == Some((k, rest))
  {
    if k == "" {
      assert k + rest == rest;
    } else {
      KeyRead(k[1..], rest);
      assert k == [k[0]] + k[1..];
      assert (k + rest)[1..] == k[1..] + rest;
    }
  }

  function TestOf(m: Matcher): Test {
    Label(SafeKey(m.name), m.op)
  }

  /** The text of a condition reads as `t`, whatever follows it. */
  ghost predicate Reads(c: string, t: Test) {
    forall rest: string :: ReadTest(c + rest) == Some((t, rest))
  }

  lemma KeyThen(k: string, tail: string, rest: string)
    requires '\'' !in k && tail != "" && tail[0] == '\''
    ensures ReadKey(k + (tail + rest), tail) == Some((k, rest))
  {
    KeyRead(k, tail + rest);
    assert (tail + rest)[|tail|..] == rest;
  }

  lemma KeyNotThen(k: string, tail: string, other: string, rest: string)
    requires '\'' !in k && |tail| > 3 && |other| > 3 && tail[0] == '\'' && tail[3] != other[3]
    ensures ReadKey(k + (tail + rest), other) == None
  {
    KeyRead(k, tail + rest);
  }

  lemma ReadsMatcher(m: Matcher, w: World)
    requires MatcherSql(m, w).Some?
    ensures Reads(MatcherSql(m, w).value, TestOf(m))
  {
    var k := SafeKey(m.name);
    hide SafeKey;
    forall rest: string ensures ReadTest(MatcherSql(m, w).value + rest) == Some((TestOf(m), rest)) {
      match m.op
      case MatchEq => ReadsEqual(k, rest);
      case MatchNeq => ReadsUnequal(k, rest);
      case MatchRegex => ReadsMatch(k, rest);
      case MatchNotRegex => ReadsNoMatch(k, rest);
    }
  }

  lemma ReadsEqual(k: string, rest: string)
    requires '\'' !in k
    ensures ReadTest("attributes['" + k + "']" + " = ?" + rest) == Some((Label(k, MatchEq), rest))
  {
    var s, after := "attributes['" + k + "']" + " = ?" + rest, k + ("'] = ?" + rest);
    assert s == ATTR + after && s[0] == 'a';
    assert s[|ATTR|..] == after;
    hide ReadKey;
    KeyThen(k, "'] = ?", rest);
  }

  lemma ReadsUnequal(k: string, rest: string)
    requires '\'' !in k
    ensures ReadTest("attributes['" + k + "']" + " != ?" + rest) == Some((Label(k, MatchNeq), rest))
  {
    var s, after := "attributes['" + k + "']" + " != ?" + rest, k + ("'] != ?" + rest);
    assert s == ATTR + after && s[0] == 'a';
    assert s[|ATTR|..] == after;
    hide ReadKey;
    KeyNotThen(k, "'] != ?", "'] = ?", rest);
    KeyThen(k, "'] != ?", rest);
  }

  lemma ReadsMatch(k: string, rest: string)
    requires '\'' !in k
    ensures ReadTest("match(" + ("attributes['" + k + "']") + ", ?)" + rest) == Some((Label(k, MatchRegex), rest))
  {
    var s, after := "match(" + ("attributes['" + k + "']") + ", ?)" + rest, k + ("'], ?)" + rest);
    assert s == MATCH + after && s[0] == 'm' && s[1] == 'a';
    assert s[|MATCH|..] == after;
    hide ReadKey;
    KeyThen(k, "'], ?)", rest);
  }

  lemma ReadsNoMatch(k: string, rest: string)
    requires '\'' !in k
    ensures ReadTest("NOT match(" + ("attributes['" + k + "']") + ", ?)" + rest) == Some((Label(k, MatchNotRegex), rest))
  {
    var s, after := "NOT match(" + ("attributes['" + k + "']") + ", ?)" + rest, k + ("'], ?)" + rest);
    assert s == NOMATCH + after && s[0] == 'N';
    assert s[|NOMATCH|..] == after;
    hide ReadKey;
    KeyThen(k, "'], ?)", rest);
  }

  lemma ReadsEnds()
    ensures Reads(METRIC, MetricIs) && Reads(RANGE, InRange)
  {
    forall rest: string ensures ReadTest(METRIC + rest) == Some((MetricIs, rest)) {
      assert (METRIC + rest)[|METRIC|..] == rest;
    }
    forall rest: string ensures ReadTest(RANGE + rest) == Some((InRange, rest)) {
      assert (RANGE + rest)[0] == 't' && (RANGE + rest)[|RANGE|..] == rest;
    }
  }

  lemma {:induction false} JoinFront(c: string, cs: seq<string>, sep: string)
    requires cs != []
    ensures Join([c] + cs, sep) == c + sep + Join(cs, sep)
  {
    var front := [c] + cs;
    assert front[..|front| - 1] == [c] + cs[..|cs| - 1];
    if |cs| > 1 {
      JoinFront(c, cs[..|cs| - 1], sep);
    }
  }

  /** Conditions that each read, joined with AND, read one after the other. */
  lemma {:induction false} JoinedRead(cs: seq<string>, ts: seq<Test>)
    requires |cs| == |ts| > 0 && forall i | 0 <= i < |cs| :: Reads(cs[i], ts[i])
    ensures ReadTests(Join(cs, AND)) == Some(ts)
  {
    hide ReadTest;
    if |cs| == 1 {
      assert cs[0] + "" == cs[0] && ts == [ts[0]] && Reads(cs[0], ts[0]);
    } else {
      var more := Join(cs[1..], AND);
      JoinedRead(cs[1..], ts[1..]);
      JoinFront(cs[0], cs[1..], AND);
      assert cs == [cs[0]] + cs[1..] && ts == [ts[0]] + ts[1..];
      assert Join(cs, AND) == cs[0] + (AND + more);
      assert Reads(cs[0], ts[0]);
      assert (AND + more)[|AND|..] == more;
    }
  }

  lemma {:induction false} ClausesAt(ms: seq<Matcher>, w: World)
    requires Clauses(ms, w).Some?
    ensures var cs := Clauses(ms, w).value;
            |cs| == |ms| && forall i | 0 <= i < |ms| :: MatcherSql(ms[i], w) == Some(cs[i])
  {
    hide MatcherSql;
    if ms != [] {
      ClausesAt(ms[..|ms| - 1], w);
    }
  }

  function TestsOf(ms: seq<Matcher>): seq<Test> {
    seq(|ms|, i requires 0 <= i < |ms| => TestOf(ms[i]))
  }

  lemma EachReads(ms: seq<Matcher>, cs: seq<string>, w: World)
    requires |cs| == |ms| && forall i | 0 <= i < |ms| :: MatcherSql(ms[i], w) == Some(cs[i])
    ensures forall i | 0 <= i < |ms| :: Reads(cs[i], TestsOf(ms)[i])
  {
    forall i | 0 <= i < |ms| ensures Reads(cs[i], TestsOf(ms)[i]) {
      ReadsMatcher(ms[i], w);
    }
  }

  lemma EnclosedRead(first: string, cs: seq<string>, last: string, t0: Test, ts: seq<Test>, t1: Test)
    requires |cs| == |ts| && Reads(first, t0) && Reads(last, t1) && forall i | 0 <= i < |cs| :: Reads(cs[i], ts[i])
    ensures ReadTests(Join([first] + cs + [last], AND)) == Some([t0] + ts + [t1])
  {
    hide Reads, ReadTests, Join;
    var all, tests := [first] + cs + [last], [t0] + ts + [t1];
    forall i | 0 <= i < |all| ensures Reads(all[i], tests[i]) {
      if 0 < i <= |cs| {
        assert Reads(cs[i - 1], ts[i - 1]);
      }
    }
    JoinedRead(all, tests);
  }

  lemma WheresRead(ms: seq<Matcher>, w: World)
    requires Clauses(ms, w).Some?
    ensures ReadTests(Wheres(Clauses(ms, w).value)) == Some([MetricIs] + TestsOf(ms) + [InRange])
  {
    var cs := Clauses(ms, w).value;
    ClausesAt(ms, w);
    EachReads(ms, cs, w);
    ReadsEnds();
    hide Reads, ReadTests, Join, Clauses, MatcherSql;
    EnclosedRead(METRIC, cs, RANGE, MetricIs, TestsOf(ms), InRange);
  }

  lemma {:induction false} MatchersHold(ms: seq<Matcher>, p: Params, pt: Point, re: Matching)
    ensures AllHold(TestsOf(ms) + [InRange], Values(ms) + [Time(p.start), Time(p.end)], pt, re) <==>
            (forall m <- ms :: Related(m.op, Attr(pt, SafeKey(m.name)), m.val, re)) && p.start <= pt.at <= p.end
  {
    var ts, args := TestsOf(ms) + [InRange], Values(ms) + [Time(p.start), Time(p.end)];
    hide SafeKey, Attr, Related;
    if ms == [] {
      assert ts == [InRange] && args == [Time(p.start), Time(p.end)];
    } else {
      MatchersHold(ms[1..], p, pt, re);
      assert ts[1..] == TestsOf(ms[1..]) + [InRange];
      assert args[1..] == Values(ms[1..]) + [Time(p.start), Time(p.end)];
      assert args[..1] == [Text(ms[0].val)];
      assert ts[0] == TestOf(ms[0]);
      assert forall m <- ms :: m == ms[0] || m in ms[1..];
    }
  }

  /** The WHERE text of a selector, read back and run with its bound arguments, lets through a point
      exactly when the metric, every matcher on its own label and value, and the time range hold. */
  lemma WheresMean(v: Selector, p: Params, w: World, pt: Point, re: Matching)
    requires Clauses(v.matches, w).Some?
    ensures TextHolds(Wheres(Clauses(v.matches, w).value), Bound(v, p), pt, re) <==> Wanted(v, p, pt, re)
  {
    hide Clauses, Wheres, ReadTests, Related, TestsOf, Values;
    WheresRead(v.matches, w);
    MatchersHold(v.matches, p, pt, re);
    var ts, args := [MetricIs] + TestsOf(v.matches) + [InRange], Bound(v, p);
    assert ts[1..] == TestsOf(v.matches) + [InRange];
    assert args[1..] == Values(v.matches) + [Time(p.start), Time(p.end)];
    assert args[..1] == [Text(v.metric)];
  }
}
