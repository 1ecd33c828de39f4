/** Scanning undoes printing for LogQL log queries, and the query that is emitted has one
    positional parameter per argument, in order. */
module LogqlPrinter {
  import opened Optional
  import opened Logql
  import SqlText

  // ---------- the printer ----------

  predicate PlainName(name: string) {
    name != "" && forall c <- name :: SqlText.KeyChar(c)
  }

  predicate PlainValue(v: string) {
    '"' !in v && '\\' !in v
  }

  predicate PlainMatcher(m: Matcher) {
    PlainName(m.name) && m.op in Operators && PlainValue(m.val)
  }

  predicate PlainFilter(f: LineFilter) {
    f.op in ["|=", "|~", "!=", "!~"] && PlainValue(f.val)
  }

  function Quote(v: string): string {
    "\"" + v + "\""
  }

  function PrintMatcher(m: Matcher): string {
    m.name + m.op + Quote(m.val)
  }

  function PrintEach(ms: seq<Matcher>): seq<string> {
    seq(|ms|, i requires 0 <= i < |ms| => PrintMatcher(ms[i]))
  }

  /** Each matcher followed by a comma. */
  function Commas(ms: seq<Matcher>): string {
    if ms == [] then "" else PrintMatcher(ms[0]) + "," + Commas(ms[1..])
  }

  function Joined(ms: seq<Matcher>): string {
    if ms == [] then "" else Commas(ms[..|ms| - 1]) + PrintMatcher(ms[|ms| - 1])
  }

  function PrintFilters(fs: seq<LineFilter>): string {
    if fs == [] then "" else " " + fs[0].op + " " + Quote(fs[0].val) + PrintFilters(fs[1..])
  }

  function Print(ms: seq<Matcher>, fs: seq<LineFilter>): string {
    "{" + Joined(ms) + "}" + PrintFilters(fs)
  }

  /** What the scanner makes of a log query. */
  function Scan(query: string): Option<(seq<Matcher>, seq<LineFilter>)> {
    match SelectorOf(query)
    case None => None
    case Some((ms, rest)) =>
      match FiltersOf(rest)
      case None => None
      case Some(fs) => Some((ms, fs))
  }

  // ---------- splitting ----------

  /** Characters the splitter passes over. */
  predicate Neutral(c: char) {
    c != '"' && c != '\\' && c != ',' && !Opens(c) && !Closes(c)
  }

  lemma {:induction false} SplitNeutral(p: string, t: string, part: string, escaped: bool)
    requires p != "" && forall c <- p :: Neutral(c)
    ensures SplitFrom(p + t, part, escaped, 0, false) == SplitFrom(t, part + p, false, 0, false)
  {
    assert p[0] in p && (p + t)[1..] == p[1..] + t;
    if |p| == 1 {
      assert p[1..] + t == t && part + [p[0]] == part + p;
    } else {
      assert forall c <- p[1..] :: c in p;
      SplitNeutral(p[1..], t, part + [p[0]], false);
      assert part + [p[0]] + p[1..] == part + p;
    }
  }

  lemma {:induction false} SplitValue(v: string, t: string, part: string)
    requires PlainValue(v)
    ensures SplitFrom(v + t, part, false, 0, true) == SplitFrom(t, part + v, false, 0, true)
  {
    if v == "" {
      assert v + t == t && part + v == part;
    } else {
      assert (v + t)[1..] == v[1..] + t && v[0] in v;
      assert forall c <- v[1..] :: c in v;
      SplitValue(v[1..], t, part + [v[0]]);
      assert part + [v[0]] + v[1..] == part + v;
    }
  }

  lemma OpsAreNeutral(op: string)
    requires op in Operators
    ensures op != "" && forall c <- op :: Neutral(c)
  {}

  /** A matcher cut off inside its value leaves the splitter inside a string. */
  lemma SplitOpen(m: Matcher, v: string, t: string, escaped: bool)
    requires PlainMatcher(m) && PlainValue(v)
    ensures SplitFrom(m.name + m.op + "\"" + v + t, "", escaped, 0, false) == SplitFrom(t, m.name + m.op + "\"" + v, false, 0, true)
  {
    var head := m.name + m.op;
    OpsAreNeutral(m.op);
    assert forall c <- head :: Neutral(c);
    var tail := "\"" + (v + t);
    assert m.name + m.op + "\"" + v + t == head + tail && "" + head == head;
    SplitNeutral(head, tail, "", escaped);
    assert tail[1..] == v + t;
    SplitValue(v, t, head + "\"");
  }

  lemma SplitMatcher(m: Matcher, t: string, escaped: bool)
    requires PlainMatcher(m)
    ensures SplitFrom(PrintMatcher(m) + t, "", escaped, 0, false) == SplitFrom(t, PrintMatcher(m), false, 0, false)
  {
    hide PlainMatcher;
    var after := "\"" + t;
    assert PrintMatcher(m) + t == m.name + m.op + "\"" + m.val + after;
    PlainParts(m);
    SplitOpen(m, m.val, after, escaped);
    assert after[1..] == t;
    assert m.name + m.op + "\"" + m.val + ['"'] == PrintMatcher(m);
  }

  lemma PlainParts(m: Matcher)
    requires PlainMatcher(m)
    ensures PlainName(m.name) && m.op in Operators && PlainValue(m.val)
  {}

  lemma SplitAtComma(part: string, rest: string)
    ensures SplitFrom("," + rest, part, false, 0, false) == [part] + SplitFrom(rest, "", false, 0, false)
  {}

  /** Splitting undoes joining, whatever follows the commas. */
  lemma {:induction false} SplitCommas(ms: seq<Matcher>, t: string)
    requires forall m <- ms :: PlainMatcher(m)
    ensures SplitFrom(Commas(ms) + t, "", false, 0, false) == PrintEach(ms) + SplitFrom(t, "", false, 0, false)
  {
    hide PlainMatcher, PrintMatcher;
    var last := SplitFrom(t, "", false, 0, false);
    if ms == [] {
      assert Commas(ms) + t == t;
      assert PrintEach(ms) + last == last;
    } else {
      var rest := Commas(ms[1..]) + t;
      var tail := "," + rest;
      assert Commas(ms) + t == PrintMatcher(ms[0]) + tail;
      SplitMatcher(ms[0], tail, false);
      SplitAtComma(PrintMatcher(ms[0]), rest);
      hide SplitFrom;
      SplitCommas(ms[1..], t);
      assert PrintEach(ms) == [PrintMatcher(ms[0])] + PrintEach(ms[1..]);
      assert [PrintMatcher(ms[0])] + (PrintEach(ms[1..]) + last) == PrintEach(ms) + last;
    }
  }

  // ---------- one matcher ----------

  lemma {:induction false} FindPast(p: string, t: string, op: string, escaped: bool)
    requires op != "" && p != "" && forall c <- p :: SqlText.KeyChar(c)
    requires !SqlText.KeyChar(op[0])
    ensures FindOp(p + t, op, escaped, false) ==
            match FindOp(t, op, false, false) case None => None case Some(k) => Some(|p| + k)
  {
    assert p[0] in p && (p + t)[1..] == p[1..] + t;
    assert !(op <= p + t);
    if |p| == 1 {
      assert p[1..] + t == t;
    } else {
      assert forall c <- p[1..] :: c in p;
      FindPast(p[1..], t, op, false);
    }
    if |p + t| < |op| {
      TooShort(t, op);
    }
  }

  lemma TooShort(t: string, op: string)
    requires |t| < |op|
    ensures FindOp(t, op, false, false) == None
  {}

  lemma {:induction false} NotInside(v: string, op: string)
    requires PlainValue(v) && op != "" && op[0] != '"'
    ensures FindOp(v + "\"", op, false, true) == None
  {
    if v == "" {
      assert v + "\"" == "\"";
      assert "\""[1..] == "";
    } else {
      assert (v + "\"")[1..] == v[1..] + "\"" && v[0] in v;
      assert forall c <- v[1..] :: c in v;
      NotInside(v[1..], op);
    }
  }

  lemma NotInQuote(v: string, op: string)
    requires PlainValue(v) && op != "" && op[0] != '"'
    ensures FindOp(Quote(v), op, false, false) == None
  {
    NotInside(v, op);
    assert Quote(v)[1..] == v + "\"";
  }

  /** After the name, only the matcher's own operator is found among those tried before it. */
  lemma OtherOperator(own: string, op: string, v: string)
    requires own in Operators && op in Operators && PlainValue(v)
    requires op != own && (op == "=~" || op == "!~" || (op == "!=" && own == "="))
    ensures FindOp(own + Quote(v), op, false, false) == None
  {
    NotInQuote(v, op);
    var s := own + Quote(v);
    assert |op| == 2 && s[|own|] == '"';
    if |own| == 1 {
      assert s[1..] == Quote(v);
      assert s[..2] != op;
    } else {
      assert s[1..][1..] == Quote(v);
      assert s[..2] == own && s[1..][..2][1] == '"';
    }
  }

  lemma OwnOperator(own: string, v: string)
    requires own in Operators
    ensures FindOp(own + Quote(v), own, false, false) == Some(0)
  {}

  lemma PlainIsTight(name: string)
    requires PlainName(name)
    ensures Tight(name)
  {
    assert name[0] in name && name[|name| - 1] in name;
  }

  /** The text after the name, cut anywhere inside the value, gives the operator back. */
  lemma FindOwn(m: Matcher, op: string, tail: string)
    requires PlainMatcher(m) && op in Operators
    requires tail == m.op + Quote(m.val)
    requires op == m.op || op == "=~" || op == "!~" || (op == "!=" && m.op == "=")
    ensures FindOp(m.name + tail, op, false, false) == if op == m.op then Some(|m.name|) else None
  {
    FindPast(m.name, tail, op, false);
    if op == m.op {
      OwnOperator(op, m.val);
    } else {
      OtherOperator(m.op, op, m.val);
    }
  }

  lemma PrintedParts(m: Matcher)
    requires PlainMatcher(m)
    ensures var s := PrintMatcher(m);
            && s == m.name + (m.op + Quote(m.val)) && s[..|m.name|] == m.name && s[|m.name| + |m.op|..] == Quote(m.val)
            && TrimSpace(s) == s && TrimSpace(m.name) == m.name && TrimSpace(Quote(m.val)) == Quote(m.val)
            && Quoted(Quote(m.val)) && Quote(m.val)[1..|m.val| + 1] == m.val && |m.name| > 0
  {
    var s := PrintMatcher(m);
    assert m.name[0] in m.name && s[0] == m.name[0] && s[|s| - 1] == '"';
    hide TrimSpace;
    TrimTight(s);
    PlainIsTight(m.name);
    TrimTight(m.name);
    TrimTight(Quote(m.val));
  }

  lemma NextOperator(s: string, ops: seq<string>)
    requires ops != [] && FindOp(s, ops[0], false, false) == None
    ensures MatcherBy(s, ops) == MatcherBy(s, ops[1..])
  {}

  /** The operators tried before a matcher's own do not occur in it, so its own is used. */
  lemma OperatorsInOrder(m: Matcher, tail: string)
    requires PlainMatcher(m) && tail == m.op + Quote(m.val)
    ensures exists ops :: ops != [] && ops[0] == m.op && MatcherOf(m.name + tail) == MatcherBy(m.name + tail, ops)
  {
    var s := m.name + tail;
    var ops := Operators;
    hide FindOp, MatcherBy, PlainMatcher;
    PlainParts(m);
    if m.op != "=~" {
      FindOwn(m, "=~", tail);
      NextOperator(s, Operators);
      ops := ["!~", "!=", "="];
      assert Operators[1..] == ops;
      if m.op != "!~" {
        FindOwn(m, "!~", tail);
        NextOperator(s, ops);
        assert ops[1..] == ["!=", "="];
        ops := ["!=", "="];
        if m.op != "!=" {
          FindOwn(m, "!=", tail);
          NextOperator(s, ops);
          assert ops[1..] == ["="];
          ops := ["="];
        }
      }
    }
    assert MatcherOf(s) == MatcherBy(s, ops);
  }

  /** Parsing one printed matcher gives it back. */
  lemma ParsePrintedMatcher(m: Matcher)
    requires PlainMatcher(m)
    ensures MatcherOf(PrintMatcher(m)) == Some(m) && TrimSpace(PrintMatcher(m)) == PrintMatcher(m) != ""
  {
    var s, tail := PrintMatcher(m), m.op + Quote(m.val);
    PrintedParts(m);
    OperatorsInOrder(m, tail);
    hide MatcherOf, PlainMatcher;
    FindOwn(m, m.op, tail) by { PlainParts(m); }
    hide MatcherBy, FindOp, TrimSpace, Quoted, Quote, PrintMatcher;
    var ops :| ops != [] && ops[0] == m.op && MatcherOf(s) == MatcherBy(s, ops);
  }

  // ---------- the selector ----------

  lemma {:induction false} ParseEach(ms: seq<Matcher>)
    requires forall m <- ms :: PlainMatcher(m)
    ensures MatchersOf(PrintEach(ms)) == Some(ms)
  {
    hide PlainMatcher, MatcherOf, PrintMatcher, TrimSpace;
    if ms != [] {
      var before, m := ms[..|ms| - 1], ms[|ms| - 1];
      ParseEach(before);
      ParsePrintedMatcher(m);
      assert PrintEach(ms)[..|ms| - 1] == PrintEach(before);
      assert ms == before + [m];
    }
  }

  lemma SplitJoined(ms: seq<Matcher>)
    requires forall m <- ms :: PlainMatcher(m)
    ensures MatchersOf(SplitFrom(Joined(ms), "", false, 0, false)) == Some(ms)
  {
    if ms == [] {
      assert [""][..0] == [];
      assert MatchersOf([""]) == Some([]);
    } else {
      hide PlainMatcher, PrintMatcher;
      var before, m := ms[..|ms| - 1], ms[|ms| - 1];
      SplitCommas(before, PrintMatcher(m));
      SplitMatcher(m, "", false);
      assert PrintMatcher(m) + "" == PrintMatcher(m);
      assert PrintEach(ms) == PrintEach(before) + [PrintMatcher(m)];
      ParseEach(ms);
    }
  }

  lemma {:induction false} IndexAfter(p: string, t: string)
    requires '}' !in p
    ensures IndexOf(p + "}" + t, '}') == |p|
  {
    var s := p + "}" + t;
    if p != "" {
      assert p[0] in p && s[1..] == p[1..] + "}" + t;
      IndexAfter(p[1..], t);
    }
  }

  lemma MatcherHasNoBrace(m: Matcher)
    requires PlainMatcher(m) && '}' !in m.val
    ensures '}' !in PrintMatcher(m)
  {}

  lemma {:induction false} CommasHaveNoBrace(ms: seq<Matcher>)
    requires forall m <- ms :: PlainMatcher(m) && '}' !in m.val
    ensures '}' !in Commas(ms)
  {
    hide PlainMatcher, PrintMatcher;
    if ms != [] {
      MatcherHasNoBrace(ms[0]);
      CommasHaveNoBrace(ms[1..]);
    }
  }

  lemma JoinedHasNoBrace(ms: seq<Matcher>)
    requires forall m <- ms :: PlainMatcher(m) && '}' !in m.val
    ensures '}' !in Joined(ms)
  {
    hide PlainMatcher, PrintMatcher;
    if ms != [] {
      CommasHaveNoBrace(ms[..|ms| - 1]);
      MatcherHasNoBrace(ms[|ms| - 1]);
    }
  }

  /** The selector is what stands between the brace and the first closing brace. */
  lemma SelectorUpTo(inner: string, after: string)
    requires '}' !in inner && Tight("{" + inner + "}" + after)
    ensures SelectorOf("{" + inner + "}" + after) ==
            match MatchersOf(SplitFrom(inner, "", false, 0, false))
            case None => None
            case Some(ms) => Some((ms, TrimSpace(after)))
  {
    var q := "{" + inner + "}" + after;
    TrimTight(q);
    assert q == ("{" + inner) + "}" + after;
    IndexAfter("{" + inner, after);
    assert q[1..|inner| + 1] == inner && q[|inner| + 2..] == after;
  }

  // ---------- line filters ----------

  lemma {:induction false} TrimLeftShape(s: string)
    ensures var t := TrimLeft(s); t == "" || !IsSpace(t[0])
  {
    if s != "" && IsSpace(s[0]) {
      TrimLeftShape(s[1..]);
    }
  }

  lemma {:induction false} TrimRightShape(s: string)
    ensures var t := TrimRight(s); t <= s && (t == "" || !IsSpace(t[|t| - 1]))
  {
    if s != "" && IsSpace(s[|s| - 1]) {
      TrimRightShape(s[..|s| - 1]);
    }
  }

  lemma TrimTwice(s: string)
    ensures Tight(TrimSpace(s)) && TrimSpace(TrimSpace(s)) == TrimSpace(s)
  {
    hide IsSpace;
    TrimLeftShape(s);
    TrimRightShape(TrimLeft(s));
    TrimTight(TrimSpace(s));
  }

  lemma FiltersOfTrimmed(s: string)
    ensures FiltersOf(TrimSpace(s)) == FiltersOf(s)
  {
    TrimTwice(s);
    hide TrimSpace, FilterOp, CloseQuote;
  }

  lemma {:induction false} CloseAfter(t: string, j: nat, k: nat)
    requires j <= k < |t| && t[k] == '"' && forall i | j <= i < k :: t[i] != '"' && t[i] != '\\'
    ensures CloseQuote(t, j) == k
    decreases k - j
  {
    if j < k {
      CloseAfter(t, j + 1, k);
    }
  }

  lemma {:induction false} FiltersEndTight(fs: seq<LineFilter>)
    ensures var t := PrintFilters(fs); t == "" || t[|t| - 1] == '"'
  {
    if fs != [] {
      FiltersEndTight(fs[1..]);
    }
  }

  lemma TrimSpaceBefore(t: string)
    requires t != "" && Tight(t)
    ensures TrimSpace(" " + t) == t
  {
    assert (" " + t)[1..] == t;
    TrimTight(t);
  }

  lemma QuoteParts(v: string, after: string)
    requires PlainValue(v)
    ensures var t := Quote(v) + after;
            t[0] == '"' && CloseQuote(t, 1) == |v| + 1 < |t| && t[1..|v| + 1] == v && t[|v| + 2..] == after
  {
    var t := Quote(v) + after;
    forall i | 1 <= i < |v| + 1 ensures t[i] != '"' && t[i] != '\\' {
      assert t[i] == v[i - 1];
    }
    CloseAfter(t, 1, |v| + 1);
  }

  lemma OpParts(op: string, t: string)
    requires op in ["|=", "|~", "!=", "!~"]
    requires t != "" && t[0] == '"' && t[|t| - 1] == '"'
    ensures TrimSpace(" " + (op + (" " + t))) == op + (" " + t)
    ensures FilterOp(op + (" " + t)) == Some(op) && |op| == 2 && (op + (" " + t))[2..] == " " + t && TrimSpace(" " + t) == t
  {
    var s := op + (" " + t);
    assert s[|s| - 1] == '"' && op <= s && s[0] == op[0] && s[1] == op[1];
    hide TrimSpace;
    TrimSpaceBefore(s);
    TrimSpaceBefore(t);
  }

  lemma OneFilter(f: LineFilter, after: string)
    requires PlainFilter(f) && (after == "" || after[|after| - 1] == '"')
    ensures FiltersOf(" " + (f.op + (" " + (Quote(f.val) + after)))) ==
            match FiltersOf(after) case None => None case Some(fs) => Some([f] + fs)
  {
    var t := Quote(f.val) + after;
    QuoteParts(f.val, after);
    assert t[|t| - 1] == '"';
    OpParts(f.op, t);
    hide FiltersOf, TrimSpace, FilterOp, CloseQuote, Quote;
  }

  /** Parsing printed line filters gives them back. */
  lemma {:induction false} ParsePrintedFilters(fs: seq<LineFilter>)
    requires forall f <- fs :: PlainFilter(f)
    ensures FiltersOf(PrintFilters(fs)) == Some(fs)
  {
    hide PlainFilter, Quote;
    if fs == [] {
      NoFilters();
    } else {
      var f, after := fs[0], PrintFilters(fs[1..]);
      ParsePrintedFilters(fs[1..]);
      FiltersEndTight(fs[1..]);
      OneFilter(f, after);
      hide FiltersOf;
      Regroup(" ", f.op, " ", Quote(f.val), after);
      assert fs == [f] + fs[1..];
    }
  }

  lemma Regroup(a: string, b: string, c: string, d: string, e: string)
    ensures a + b + c + d + e == a + (b + (c + (d + e)))
  {}

  lemma NoFilters()
    ensures FiltersOf("") == Some([])
  {}

  // ---------- the whole query ----------

  lemma PrintIsTight(ms: seq<Matcher>, fs: seq<LineFilter>)
    ensures Tight(Print(ms, fs))
  {
    FiltersEndTight(fs);
  }

  predicate AtMostOneQuote(s: string) {
    forall i, j | 0 <= i < |s| && 0 <= j < |s| && s[i] == '"' && s[j] == '"' :: i == j
  }

  lemma {:induction false} TrimLeftIsSuffix(s: string) returns (a: nat)
    ensures a <= |s| && TrimLeft(s) == s[a..]
  {
    a := 0;
    if s != "" && IsSpace(s[0]) {
      var b := TrimLeftIsSuffix(s[1..]);
      a := b + 1;
      assert s[1..][b..] == s[a..];
    }
  }

  lemma TrimKeepsOneQuote(s: string)
    requires AtMostOneQuote(s)
    ensures AtMostOneQuote(TrimSpace(s))
  {
    hide IsSpace;
    var a := TrimLeftIsSuffix(s);
    TrimRightShape(TrimLeft(s));
    var t := TrimSpace(s);
    assert forall i | 0 <= i < |t| :: t[i] == s[a + i];
  }

  /** A quoted value needs two quotes. */
  lemma {:induction false} OneQuoteIsNoMatcher(s: string, ops: seq<string>)
    requires AtMostOneQuote(s)
    ensures MatcherBy(s, ops) == None
    decreases |ops|
  {
    hide TrimSpace, FindOp;
    if ops != [] {
      OneQuoteIsNoMatcher(s, ops[1..]);
      var idx := FindOp(s, ops[0], false, false);
      if idx.Some? {
        TrimKeepsOneQuote(s[idx.value + |ops[0]|..]);
      }
    }
  }

  lemma CutMatcherFails(m: Matcher, v: string)
    requires PlainMatcher(m) && PlainValue(v)
    ensures var open := m.name + m.op + "\"" + v; TrimSpace(open) != "" && MatcherOf(TrimSpace(open)) == None
  {
    var open, head := m.name + m.op + "\"" + v, m.name + m.op;
    assert forall c <- head :: SqlText.KeyChar(c) || c in m.op;
    assert '"' !in head;
    assert forall i | 0 <= i < |open| && open[i] == '"' :: i == |head|;
    TrimKeepsOneQuote(open);
    OneQuoteIsNoMatcher(TrimSpace(open), Operators);
    TrimNonEmpty(open, |head|);
  }

  lemma {:induction false} TrimRightKeeps(s: string, k: nat)
    requires k < |s| && !IsSpace(s[k])
    ensures |TrimRight(s)| > k
  {
    if IsSpace(s[|s| - 1]) {
      TrimRightKeeps(s[..|s| - 1], k);
    }
  }

  lemma TrimNonEmpty(s: string, k: nat)
    requires k < |s| && !IsSpace(s[k])
    ensures TrimSpace(s) != ""
  {
    hide IsSpace;
    var a := TrimLeftIsSuffix(s);
    TrimLeftKeeps(s, k);
    TrimRightKeeps(s[a..], k - a);
  }

  lemma {:induction false} TrimLeftKeeps(s: string, k: nat)
    requires k < |s| && !IsSpace(s[k])
    ensures |TrimLeft(s)| >= |s| - k
  {
    if IsSpace(s[0]) {
      TrimLeftKeeps(s[1..], k - 1);
    }
  }

  /** A value holding a closing brace cuts the selector short, and the scan fails. */
  lemma BraceFails(ms: seq<Matcher>, fs: seq<LineFilter>, k: nat)
    requires forall m <- ms :: PlainMatcher(m)
    requires k < |ms| && '}' in ms[k].val && forall j | 0 <= j < k :: '}' !in ms[j].val
    ensures SelectorOf(Print(ms, fs)) == None
  {
    var before, m := ms[..k], ms[k];
    var cut := IndexOf(m.val, '}');
    var v := m.val[..cut];
    var open := m.name + m.op + "\"" + v;
    var inner := Commas(before) + open;
    CutIsPlain(m, cut);
    CommasHaveNoBrace(before);
    var after := PrintAfterCut(ms, fs, k, cut);
    PrintIsTight(ms, fs);
    SelectorUpTo(inner, after);
    SplitCommas(before, open);
    SplitOpen(m, v, "", false);
    assert open + "" == open;
    ParseEach(before);
    CutMatcherFails(m, v);
    hide PlainMatcher, MatcherOf, TrimSpace, PrintEach, Print;
    assert (PrintEach(before) + [open])[..|PrintEach(before)|] == PrintEach(before);
  }

  lemma CutIsPlain(m: Matcher, cut: nat)
    requires PlainMatcher(m) && cut < |m.val| && forall i | 0 <= i < cut :: m.val[i] != '}'
    ensures PlainValue(m.val[..cut]) && '}' !in m.name + m.op + "\"" + m.val[..cut]
  {}

  lemma PrintAfterCut(ms: seq<Matcher>, fs: seq<LineFilter>, k: nat, cut: nat) returns (after: string)
    requires k < |ms| && cut < |ms[k].val| && ms[k].val[cut] == '}'
    ensures Print(ms, fs) == "{" + (Commas(ms[..k]) + (ms[k].name + ms[k].op + "\"" + ms[k].val[..cut])) + "}" + after
  {
    var tail := JoinedFrom(ms, k);
    var m := ms[k];
    var rest := m.val[cut + 1..] + "\"";
    assert PrintMatcher(m) == (m.name + m.op + "\"" + m.val[..cut]) + "}" + rest by {
      assert m.val == m.val[..cut] + "}" + m.val[cut + 1..];
    }
    after := rest + tail + "}" + PrintFilters(fs);
  }

  lemma {:induction false} CommasAppend(a: seq<Matcher>, b: seq<Matcher>)
    ensures Commas(a + b) == Commas(a) + Commas(b)
  {
    hide PrintMatcher;
    if a == [] {
      assert a + b == b;
    } else {
      CommasAppend(a[1..], b);
      assert (a + b)[1..] == a[1..] + b;
      assert Commas(a + b) == PrintMatcher(a[0]) + "," + Commas(a[1..] + b);
      hide Commas;
      Regroup("", PrintMatcher(a[0]), ",", Commas(a[1..]), Commas(b));
    }
  }

  /** The joined matchers from position k on begin with the printed matcher k. */
  lemma JoinedFrom(ms: seq<Matcher>, k: nat) returns (tail: string)
    requires k < |ms|
    ensures Joined(ms) == Commas(ms[..k]) + PrintMatcher(ms[k]) + tail
  {
    hide PrintMatcher, Commas;
    var last := |ms| - 1;
    if k == last {
      tail := "";
    } else {
      CommasAppend(ms[..k], ms[k..last]);
      assert ms[..k] + ms[k..last] == ms[..last];
      CommasFirst(ms[k..last]);
      tail := "," + Commas(ms[k..last][1..]) + PrintMatcher(ms[last]);
    }
  }

  lemma CommasFirst(ms: seq<Matcher>)
    requires ms != []
    ensures Commas(ms) == PrintMatcher(ms[0]) + ("," + Commas(ms[1..]))
  {}

  /** The least position of a value holding a closing brace. */
  lemma {:induction false} FirstBrace(ms: seq<Matcher>) returns (k: nat)
    requires exists m <- ms :: '}' in m.val
    ensures k < |ms| && '}' in ms[k].val && forall j | 0 <= j < k :: '}' !in ms[j].val
  {
    if '}' in ms[0].val {
      k := 0;
    } else {
      var r := FirstBrace(ms[1..]);
      k := r + 1;
    }
  }

  /** Scanning a printed query gives back its matchers and filters, commas and brackets inside
      quotes included, exactly when no selector value holds a closing brace. */
  lemma ScanPrinted(ms: seq<Matcher>, fs: seq<LineFilter>)
    requires (forall m <- ms :: PlainMatcher(m)) && (forall f <- fs :: PlainFilter(f))
    ensures Scan(Print(ms, fs)) == Some((ms, fs)) <==> forall m <- ms :: '}' !in m.val
    ensures (exists m <- ms :: '}' in m.val) ==> Scan(Print(ms, fs)) == None
  {
    hide PlainMatcher, PlainFilter, SplitFrom, TrimSpace, MatcherOf;
    if forall m <- ms :: '}' !in m.val {
      JoinedHasNoBrace(ms);
      PrintIsTight(ms, fs);
      SelectorUpTo(Joined(ms), PrintFilters(fs));
      SplitJoined(ms);
      ParsePrintedFilters(fs);
      FiltersOfTrimmed(PrintFilters(fs));
    } else {
      var k := FirstBrace(ms);
      BraceFails(ms, fs, k);
    }
  }
}
