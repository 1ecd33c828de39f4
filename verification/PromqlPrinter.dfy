/** A printer with minimal parentheses for PromQL trees, and the theorem that the parser undoes
    it: for every tree the grammar can denote and every remainder that cannot continue it. */
module PromqlPrinter {
  import opened Optional
  import opened PromqlAst
  import opened PromqlParser

  /** Prints a float so that `pf` reads it back (for the literals that occur). */
  type FormatFloat = real -> string

  function OpKind(op: string): Option<Kind> {
    if op == ">" then Some(Gt)
    else if op == "<" then Some(Lt)
    else if op == ">=" then Some(Gte)
    else if op == "<=" then Some(Lte)
    else if op == "==" then Some(EqCmp)
    else if op == "!=" then Some(Neq)
    else if op == "+" then Some(Plus)
    else if op == "-" then Some(Minus)
    else if op == "*" then Some(Star)
    else if op == "/" then Some(Slash)
    else None
  }

  /** Binding strength: 0 comparison, 1 sum, 2 product, 3 primary. */
  function Prec(n: Node): (p: nat)
    ensures p <= 3
  {
    if n.Bin? && OpKind(n.binop).Some? then
      var k := OpKind(n.binop).value;
      if k in CmpKinds then 0 else if k in AddKinds then 1 else 2
    else 3
  }

  /** The strengths at which the operands of a binary node of strength `p` are parsed. */
  function LeftLevel(p: nat): nat {
    if p == 0 then 1 else p
  }

  function RightLevel(p: nat): nat {
    p + 1
  }

  // ---------- printing ----------

  function PrintExpr(n: Node, level: nat, fmt: FormatFloat): seq<Token>
    decreases n, 1
  {
    if Prec(n) < level then [Token(LParen, "(")] + Body(n, fmt) + [Token(RParen, ")")] else Body(n, fmt)
  }

  function Body(n: Node, fmt: FormatFloat): seq<Token>
    decreases n, 0
  {
    match n
    case Num(v) => [Token(Number, fmt(v))]
    case Vector(v) => PrintSelector(v)
    case Range(v, _, text) => PrintSelector(v) + [Token(LBracket, "["), Token(Duration, text), Token(RBracket, "]")]
    case Call(name, args) => [Token(Ident, name), Token(LParen, "(")] + PrintArgs(args, fmt) + [Token(RParen, ")")]
    case Aggr(op, arg, labs, wlabs, phi) =>
      [Token(Ident, op), Token(LParen, "(")] + PrintPhi(phi, fmt) + PrintExpr(arg, 0, fmt) + [Token(RParen, ")")]
      + PrintModifier(labs, wlabs)
    case Bin(op, l, r) =>
      var p := Prec(n);
      PrintExpr(l, LeftLevel(p), fmt) + PrintOp(op) + PrintExpr(r, RightLevel(p), fmt)
  }

  function PrintOp(op: string): seq<Token> {
    if OpKind(op).Some? then [Token(OpKind(op).value, op)] else []
  }

  function PrintPhi(phi: Option<real>, fmt: FormatFloat): seq<Token> {
    if phi.Some? then [Token(Number, fmt(phi.value)), Token(Comma, ",")] else []
  }

  function PrintArgs(args: seq<Node>, fmt: FormatFloat): seq<Token>
    decreases args, 2
  {
    if args == [] then []
    else if |args| == 1 then PrintExpr(args[0], 0, fmt)
    else PrintExpr(args[0], 0, fmt) + [Token(Comma, ",")] + PrintArgs(args[1..], fmt)
  }

  function PrintModifier(labs: seq<string>, wlabs: seq<string>): seq<Token> {
    if labs != [] then [Token(By, "by"), Token(LParen, "(")] + PrintLabels(labs) + [Token(RParen, ")")]
    else if wlabs != [] then [Token(Without, "without"), Token(LParen, "(")] + PrintLabels(wlabs) + [Token(RParen, ")")]
    else []
  }

  function PrintLabels(labs: seq<string>): seq<Token> {
    if labs == [] then []
    else if |labs| == 1 then [Token(Ident, labs[0])]
    else [Token(Ident, labs[0]), Token(Comma, ",")] + PrintLabels(labs[1..])
  }

  function PrintSelector(v: Selector): seq<Token> {
    [Token(Ident, v.metric)]
    + if v.matches == [] then [] else [Token(LBrace, "{")] + PrintMatchers(v.matches) + [Token(RBrace, "}")]
  }

  function MatcherToken(op: MatcherOp): Token {
    match op
    case MatchEq => Token(EqSign, "=")
    case MatchNeq => Token(Neq, "!=")
    case MatchRegex => Token(RegexMat, "=~")
    case MatchNotRegex => Token(RegexNoMat, "!~")
  }

  function PrintMatcher(m: Matcher): seq<Token> {
    [Token(Ident, m.name), MatcherToken(m.op), Token(Str, m.val)]
  }

  function PrintMatchers(ms: seq<Matcher>): seq<Token> {
    if ms == [] then []
    else if |ms| == 1 then PrintMatcher(ms[0])
    else PrintMatcher(ms[0]) + [Token(Comma, ",")] + PrintMatchers(ms[1..])
  }

  // ---------- the trees the grammar denotes ----------

  predicate WellFormed(n: Node, pf: ParseFloat, fmt: FormatFloat) {
    match n
    case Num(v) => pf(fmt(v)) == Some(v)
    case Vector(_) => true
    case Range(_, dur, text) => ParseDuration(text, pf) == Some(dur)
    case Call(name, args) => !IsAggrName(name) && forall a <- args :: WellFormed(a, pf, fmt)
    case Aggr(op, arg, labs, wlabs, phi) =>
      && IsAggrName(op) && (op == "quantile" <==> phi.Some?)
      && (phi.Some? ==> pf(fmt(phi.value)) == phi)
      && (labs == [] || wlabs == [])
      && WellFormed(arg, pf, fmt)
    case Bin(op, l, r) => OpKind(op).Some? && WellFormed(l, pf, fmt) && WellFormed(r, pf, fmt)
  }

  /** The kinds of token that would extend the last piece of the printed tree. */
  function Tail(n: Node, level: nat): set<Kind>
    decreases n
  {
    if Prec(n) < level then {}
    else
      match n
      case Num(_) => {}
      case Vector(v) => if v.matches == [] then {LParen, LBrace, LBracket} else {LBracket}
      case Range(_, _, _) => {}
      case Call(_, _) => {}
      case Aggr(_, _, labs, wlabs, _) => if labs == [] && wlabs == [] then {By, Without} else {}
      case Bin(_, _, r) => Tail(r, RightLevel(Prec(n)))
  }

  /** The kinds of token that continue a whole expression: its tail, an arithmetic operator, or a
      comparison operator unless the expression is a comparison already. */
  function Continues(n: Node): set<Kind> {
    Tail(n, 0) + MulKinds + AddKinds + if Prec(n) == 0 then {} else CmpKinds
  }

  // ---------- lists ----------

  lemma Uncons(t: Token, after: seq<Token>)
    ensures ([t] + after)[0] == t && ([t] + after)[1..] == after
  {}

  lemma LabelTokens(labs: seq<string>, rest: seq<Token>)
    requires labs != []
    ensures PrintLabels(labs) + rest ==
            [Token(Ident, labs[0])] + if |labs| == 1 then rest else [Token(Comma, ",")] + (PrintLabels(labs[1..]) + rest)
  {}

  lemma {:induction false} LabelsRoundTrip(done: seq<string>, labs: seq<string>, rest: seq<Token>)
    requires labs != [] && At(rest, {RParen})
    ensures ParseLabels(done, PrintLabels(labs) + rest) == Ok(done + labs, rest)
    decreases |labs|
  {
    LabelTokens(labs, rest);
    hide PrintLabels, ParseLabels;
    var id := labs[0];
    if |labs| == 1 {
      assert labs == [id];
    } else {
      var more := PrintLabels(labs[1..]) + rest;
      Uncons(Token(Comma, ","), more);
      LabelsRoundTrip(done + [id], labs[1..], rest);
      AppendNext(done, labs);
    }
  }

  lemma AppendNext<T>(done: seq<T>, items: seq<T>)
    requires items != []
    ensures done + [items[0]] + items[1..] == done + items
  {}

  lemma MatcherOpToken(op: MatcherOp)
    ensures OpOf(MatcherToken(op).kind) == Some(op)
  {}

  lemma MatcherTokens(m: Matcher, after: seq<Token>)
    ensures PrintMatcher(m) + after == [Token(Ident, m.name)] + ([MatcherToken(m.op)] + ([Token(Str, m.val)] + after))
  {}

  /** One step of the matcher loop. */
  lemma MatcherStep(done: seq<Matcher>, m: Matcher, after: seq<Token>)
    ensures ParseMatchers(done, PrintMatcher(m) + after)
         == ParseMatchers(done + [m], if At(after, {Comma}) then after[1..] else after)
  {
    hide PrintMatcher, OpOf, MatcherToken;
    MatcherTokens(m, after);
    var third := [Token(Str, m.val)] + after;
    var second := [MatcherToken(m.op)] + third;
    Uncons(Token(Ident, m.name), second);
    Uncons(MatcherToken(m.op), third);
    Uncons(Token(Str, m.val), after);
    MatcherOpToken(m.op);
    assert Matcher(m.name, m.op, m.val) == m;
  }

  lemma NextMatcher(ms: seq<Matcher>, rest: seq<Token>)
    requires |ms| > 1
    ensures var after := [Token(Comma, ",")] + (PrintMatchers(ms[1..]) + rest);
            && PrintMatchers(ms) + rest == PrintMatcher(ms[0]) + after
            && At(after, {Comma}) && after[1..] == PrintMatchers(ms[1..]) + rest
  {
    hide PrintMatcher;
    var more, comma := PrintMatchers(ms[1..]), [Token(Comma, ",")];
    assert PrintMatchers(ms) == PrintMatcher(ms[0]) + comma + more;
    Reassociate(PrintMatcher(ms[0]), comma, more, rest);
  }

  lemma Reassociate(a: seq<Token>, b: seq<Token>, c: seq<Token>, d: seq<Token>)
    ensures a + b + c + d == a + (b + (c + d))
  {}

  lemma {:induction false} MatchersRoundTrip(done: seq<Matcher>, ms: seq<Matcher>, rest: seq<Token>)
    requires At(rest, {RBrace})
    ensures ParseMatchers(done, PrintMatchers(ms) + rest) == Ok(done + ms, rest[1..])
    decreases |ms|
  {
    if ms == [] {
      assert PrintMatchers(ms) + rest == rest;
      assert done + ms == done;
    } else {
      hide PrintMatcher, PrintMatchers, ParseMatchers;
      var m := ms[0];
      if |ms| == 1 {
        MatcherStep(done, m, rest);
        assert done + ms == done + [m];
      } else {
        var more := PrintMatchers(ms[1..]) + rest;
        NextMatcher(ms, rest);
        MatcherStep(done, m, [Token(Comma, ",")] + more);
        MatchersRoundTrip(done + [m], ms[1..], rest);
        AppendNext(done, ms);
      }
    }
  }

  /** A name not followed by a parenthesis is a selector. */
  lemma SelectorStep(metric: string, after: seq<Token>, pf: ParseFloat)
    requires !At(after, {LParen})
    ensures ParsePrimary([Token(Ident, metric)] + after, pf) == ParseSelectorTail(metric, after, pf)
  {
    hide ParseSelectorTail;
    Uncons(Token(Ident, metric), after);
    assert ParsePrimary([Token(Ident, metric)] + after, pf) == ParseIdentLike(metric, after, pf);
  }

  lemma SelectorRoundTrip(v: Selector, pf: ParseFloat, rest: seq<Token>)
    requires v.matches == [] ==> !At(rest, {LParen, LBrace})
    ensures ParsePrimary(PrintSelector(v) + rest, pf) == ParseRangeTail(v, rest, pf)
  {
    hide ParsePrimary, ParseRangeTail, ParseMatchers, PrintMatchers;
    if v.matches == [] {
      assert PrintSelector(v) + rest == [Token(Ident, v.metric)] + rest;
      SelectorStep(v.metric, rest, pf);
    } else {
      var close := [Token(RBrace, "}")] + rest;
      var after := [Token(LBrace, "{")] + (PrintMatchers(v.matches) + close);
      assert PrintSelector(v) + rest == [Token(Ident, v.metric)] + after;
      SelectorStep(v.metric, after, pf);
      assert after[1..] == PrintMatchers(v.matches) + close;
      MatchersRoundTrip([], v.matches, close);
      assert close[1..] == rest;
      assert [] + v.matches == v.matches;
    }
  }

  lemma ModifierTokens(labs: seq<string>, wlabs: seq<string>, rest: seq<Token>)
    requires labs != [] || wlabs != []
    ensures PrintModifier(labs, wlabs) + rest ==
            [if labs != [] then Token(By, "by") else Token(Without, "without")]
            + ([Token(LParen, "(")] + (PrintLabels(if labs != [] then labs else wlabs) + ([Token(RParen, ")")] + rest)))
  {}

  lemma ModifierRoundTrip(op: string, arg: Node, labs: seq<string>, wlabs: seq<string>, phi: Option<real>, rest: seq<Token>)
    requires labs == [] || wlabs == []
    requires labs == [] && wlabs == [] ==> !At(rest, {By, Without})
    ensures ParseModifier(op, arg, phi, PrintModifier(labs, wlabs) + rest) == Ok(Aggr(op, arg, labs, wlabs, phi), rest)
  {
    hide PrintLabels, ParseLabels;
    if labs == [] && wlabs == [] {
      assert PrintModifier(labs, wlabs) + rest == rest;
    } else {
      var all := if labs != [] then labs else wlabs;
      var word := if labs != [] then Token(By, "by") else Token(Without, "without");
      var close := [Token(RParen, ")")] + rest;
      var inner := PrintLabels(all) + close;
      ModifierTokens(labs, wlabs, rest);
      hide PrintModifier;
      Uncons(word, [Token(LParen, "(")] + inner);
      Uncons(Token(LParen, "("), inner);
      Uncons(Token(RParen, ")"), rest);
      LabelsRoundTrip([], all, close);
      assert [] + all == all;
    }
  }

  // ---------- one step of each grammar function ----------

  lemma MulFirst(ts: seq<Token>, left: Node, rest: seq<Token>, pf: ParseFloat)
    requires ParsePrimary(ts, pf) == Ok(left, rest)
    ensures ParseMul(ts, pf) == MulLoop(left, rest, pf)
  {}

  lemma MulStep(left: Node, op: Token, after: seq<Token>, right: Node, rest: seq<Token>, pf: ParseFloat)
    requires op.kind in MulKinds && ParsePrimary(after, pf) == Ok(right, rest)
    ensures MulLoop(left, [op] + after, pf) == MulLoop(Bin(op.val, left, right), rest, pf)
  {}

  lemma MulStop(left: Node, ts: seq<Token>, pf: ParseFloat)
    requires !At(ts, MulKinds)
    ensures MulLoop(left, ts, pf) == Ok(left, ts)
  {}

  lemma AddFirst(ts: seq<Token>, left: Node, rest: seq<Token>, pf: ParseFloat)
    requires ParseMul(ts, pf) == Ok(left, rest)
    ensures ParseAdd(ts, pf) == AddLoop(left, rest, pf)
  {
    hide ParseMul, AddLoop;
  }

  lemma AddStep(left: Node, op: Token, after: seq<Token>, right: Node, rest: seq<Token>, pf: ParseFloat)
    requires op.kind in AddKinds && ParseMul(after, pf) == Ok(right, rest)
    ensures AddLoop(left, [op] + after, pf) == AddLoop(Bin(op.val, left, right), rest, pf)
  {}

  lemma AddStop(left: Node, ts: seq<Token>, pf: ParseFloat)
    requires !At(ts, AddKinds)
    ensures AddLoop(left, ts, pf) == Ok(left, ts)
  {}

  lemma ExprFirst(ts: seq<Token>, left: Node, rest: seq<Token>, pf: ParseFloat)
    requires ParseAdd(ts, pf) == Ok(left, rest)
    ensures ParseExpr(ts, pf) == CmpTail(left, rest, pf)
  {}

  lemma CmpStep(left: Node, op: Token, after: seq<Token>, right: Node, rest: seq<Token>, pf: ParseFloat)
    requires op.kind in CmpKinds && ParseAdd(after, pf) == Ok(right, rest)
    ensures CmpTail(left, [op] + after, pf) == Ok(Bin(op.val, left, right), rest)
  {}

  lemma CmpStop(n: Node, ts: seq<Token>, pf: ParseFloat)
    requires !At(ts, CmpKinds)
    ensures CmpTail(n, ts, pf) == Ok(n, ts)
  {}

  lemma GroupStep(inner: seq<Token>, n: Node, rest: seq<Token>, pf: ParseFloat)
    requires ParseExpr(inner + ([Token(RParen, ")")] + rest), pf) == Ok(n, [Token(RParen, ")")] + rest)
    ensures ParsePrimary([Token(LParen, "(")] + (inner + ([Token(RParen, ")")] + rest)), pf) == Ok(n, rest)
  {}

  lemma ArgStep(done: seq<Node>, ts: seq<Token>, a: Node, rest: seq<Token>, pf: ParseFloat)
    requires ParseExpr(ts, pf) == Ok(a, rest)
    ensures ParseArgs(done, ts, pf) ==
            if At(rest, {Comma}) then ParseArgs(done + [a], rest[1..], pf) else Ok(done + [a], rest)
  {}

  lemma NumberStep(v: real, after: seq<Token>, pf: ParseFloat, fmt: FormatFloat)
    requires pf(fmt(v)) == Some(v) && !At(after, MulKinds + AddKinds + CmpKinds)
    ensures ParseExpr([Token(Number, fmt(v))] + after, pf) == Ok(Num(v), after)
  {
    var ts := [Token(Number, fmt(v))] + after;
    Uncons(Token(Number, fmt(v)), after);
    assert ParsePrimary(ts, pf) == Ok(Num(v), after);
    hide ParsePrimary, ParseMul, ParseAdd, ParseExpr, MulLoop, AddLoop, CmpTail;
    MulFirst(ts, Num(v), after, pf);
    MulStop(Num(v), after, pf);
    AddFirst(ts, Num(v), after, pf);
    AddStop(Num(v), after, pf);
    ExprFirst(ts, Num(v), after, pf);
    CmpStop(Num(v), after, pf);
  }

  // ---------- expressions ----------

  function Rank(n: Node, level: nat): nat {
    if level <= 3 then 3 - level + (if Prec(n) < level then 10 else 0) else 0
  }

  lemma {:induction false} TailKinds(n: Node, level: nat)
    ensures Tail(n, level) <= {LParen, LBrace, LBracket, By, Without}
    decreases n
  {
    if Prec(n) >= level && n.Bin? {
      TailKinds(n.right, RightLevel(Prec(n)));
    }
  }

  /** A binary node printed where it needs no parentheses. */
  lemma PrintBinary(n: Node, level: nat, fmt: FormatFloat, rest: seq<Token>)
    requires n.Bin? && OpKind(n.binop).Some? && level <= Prec(n)
    ensures var p := Prec(n);
            PrintExpr(n, level, fmt) + rest ==
              PrintExpr(n.left, LeftLevel(p), fmt)
              + ([Token(OpKind(n.binop).value, n.binop)] + (PrintExpr(n.right, RightLevel(p), fmt) + rest))
    ensures Tail(n, level) == Tail(n.right, RightLevel(Prec(n)))
  {
    hide Prec, OpKind;
    assert PrintExpr(n, level, fmt) == Body(n, fmt);
  }

  lemma BinaryParts(n: Node, pf: ParseFloat, fmt: FormatFloat)
    requires WellFormed(n, pf, fmt) && Prec(n) < 3
    ensures n.Bin? && OpKind(n.binop).Some? && WellFormed(n.left, pf, fmt) && WellFormed(n.right, pf, fmt)
    ensures var k := OpKind(n.binop).value;
            (Prec(n) == 0 <==> k in CmpKinds) && (Prec(n) == 1 <==> k in AddKinds) && (Prec(n) == 2 <==> k in MulKinds)
    ensures n == Bin(n.binop, n.left, n.right)
  {}

  /** Below its own strength nothing changes; above it the node is parenthesized. */
  lemma PrintLevels(n: Node, level: nat, fmt: FormatFloat)
    requires Prec(n) != level
    ensures PrintExpr(n, level, fmt) == PrintExpr(n, level + 1, fmt) && Tail(n, level) == Tail(n, level + 1)
  {}

  /** At strength 3 the parser takes the printed primary and nothing else. */
  lemma {:induction false} PrimaryRoundTrip(n: Node, pf: ParseFloat, fmt: FormatFloat, rest: seq<Token>)
    requires WellFormed(n, pf, fmt) && !At(rest, Tail(n, 3))
    ensures ParsePrimary(PrintExpr(n, 3, fmt) + rest, pf) == Ok(n, rest)
    decreases n, Rank(n, 3), 1
  {
    if Prec(n) < 3 {
      GroupRoundTrip(n, pf, fmt, rest);
    } else {
      AtomRoundTrip(n, pf, fmt, rest);
    }
  }

  lemma {:induction false} GroupRoundTrip(n: Node, pf: ParseFloat, fmt: FormatFloat, rest: seq<Token>)
    requires WellFormed(n, pf, fmt) && Prec(n) < 3
    ensures ParsePrimary(PrintExpr(n, 3, fmt) + rest, pf) == Ok(n, rest)
    decreases n, 9, 0
  {
    hide *;
    var close := [Token(RParen, ")")] + rest;
    assert !At(close, {LParen, LBrace, LBracket, By, Without}) && !At(close, MulKinds + AddKinds) && !At(close, CmpKinds) by { CloseKinds(rest); }
    TailKinds(n, 0);
    AtSubset(close, Tail(n, 0), {LParen, LBrace, LBracket, By, Without}, MulKinds + AddKinds);
    RankBound(n);
    ExprRoundTrip(n, pf, fmt, close);
    CmpStop(n, close, pf);
    Parenthesized(n, fmt, rest);
    GroupStep(PrintExpr(n, 0, fmt), n, rest, pf);
  }

  lemma RankBound(n: Node)
    ensures Rank(n, 0) < 9
  {}

  lemma Parenthesized(n: Node, fmt: FormatFloat, rest: seq<Token>)
    requires Prec(n) < 3
    ensures PrintExpr(n, 3, fmt) + rest == [Token(LParen, "(")] + (PrintExpr(n, 0, fmt) + ([Token(RParen, ")")] + rest))
  {
    hide Body, Prec;
  }

  lemma CloseKinds(rest: seq<Token>)
    ensures var close := [Token(RParen, ")")] + rest;
            !At(close, {LParen, LBrace, LBracket, By, Without}) && !At(close, MulKinds + AddKinds) && !At(close, CmpKinds)
    ensures var comma := [Token(Comma, ",")] + rest;
            !At(comma, {LParen, LBrace, LBracket, By, Without}) && !At(comma, MulKinds + AddKinds) && !At(comma, CmpKinds)
  {}

  lemma AtSubset(ts: seq<Token>, a: set<Kind>, b: set<Kind>, c: set<Kind>)
    requires a <= b && !At(ts, b) && !At(ts, c)
    ensures !At(ts, a) && !At(ts, a + c)
  {}

  /** The duration in brackets after a selector. */
  lemma RangeStep(v: Selector, dur: int, text: string, pf: ParseFloat, rest: seq<Token>)
    requires ParseDuration(text, pf) == Some(dur)
    ensures ParseRangeTail(v, [Token(LBracket, "[")] + ([Token(Duration, text)] + ([Token(RBracket, "]")] + rest)), pf)
         == Ok(Range(v, dur, text), rest)
  {
    hide ParseDuration;
    var third := [Token(RBracket, "]")] + rest;
    var second := [Token(Duration, text)] + third;
    Uncons(Token(LBracket, "["), second);
    Uncons(Token(Duration, text), third);
    Uncons(Token(RBracket, "]"), rest);
  }

  lemma RangeRoundTrip(v: Selector, dur: int, text: string, pf: ParseFloat, fmt: FormatFloat, rest: seq<Token>)
    requires ParseDuration(text, pf) == Some(dur)
    ensures ParsePrimary(Body(Range(v, dur, text), fmt) + rest, pf) == Ok(Range(v, dur, text), rest)
  {
    hide ParseDuration, ParsePrimary, ParseRangeTail, PrintSelector;
    var tail := [Token(LBracket, "[")] + ([Token(Duration, text)] + ([Token(RBracket, "]")] + rest));
    assert Body(Range(v, dur, text), fmt) + rest == PrintSelector(v) + tail;
    assert !At(tail, {LParen, LBrace});
    SelectorRoundTrip(v, pf, tail);
    RangeStep(v, dur, text, pf, rest);
  }

  lemma VectorRoundTrip(v: Selector, pf: ParseFloat, fmt: FormatFloat, rest: seq<Token>)
    requires !At(rest, Tail(Vector(v), 3))
    ensures ParsePrimary(Body(Vector(v), fmt) + rest, pf) == Ok(Vector(v), rest)
  {
    hide ParsePrimary, PrintSelector;
    SelectorRoundTrip(v, pf, rest);
  }

  lemma NumRoundTrip(v: real, pf: ParseFloat, fmt: FormatFloat, rest: seq<Token>)
    requires pf(fmt(v)) == Some(v)
    ensures ParsePrimary(Body(Num(v), fmt) + rest, pf) == Ok(Num(v), rest)
  {
    Uncons(Token(Number, fmt(v)), rest);
  }

  lemma {:induction false} AtomRoundTrip(n: Node, pf: ParseFloat, fmt: FormatFloat, rest: seq<Token>)
    requires WellFormed(n, pf, fmt) && Prec(n) == 3 && !At(rest, Tail(n, 3))
    ensures ParsePrimary(Body(n, fmt) + rest, pf) == Ok(n, rest)
    decreases n, 0, 0
  {
    hide ParsePrimary, Body;
    match n
    case Num(v) => NumRoundTrip(v, pf, fmt, rest);
    case Vector(v) => VectorRoundTrip(v, pf, fmt, rest);
    case Range(v, dur, text) => RangeRoundTrip(v, dur, text, pf, fmt, rest);
    case Call(name, args) => CallRoundTrip(name, args, pf, fmt, rest);
    case Aggr(op, arg, labs, wlabs, phi) => AggrRoundTrip(op, arg, labs, wlabs, phi, pf, fmt, rest);
  }

  /** What a call parses to once its arguments are parsed. */
  lemma CallStep(name: string, inner: seq<Token>, args: seq<Node>, after: seq<Token>, pf: ParseFloat)
    requires var close := [Token(RParen, ")")] + after;
             if args == [] then inner == [] else ParseArgs([], inner + close, pf) == Ok(args, close) && !At(inner + close, {RParen})
    ensures ParsePrimary([Token(Ident, name)] + ([Token(LParen, "(")] + (inner + ([Token(RParen, ")")] + after))), pf) ==
            if IsAggrName(name) then FinishAggr(name, args, after) else Ok(Call(name, args), after)
  {
    hide ParseArgs, FinishAggr, IsAggrName;
    var close := [Token(RParen, ")")] + after;
    var ts := [Token(LParen, "(")] + (inner + close);
    Uncons(Token(Ident, name), ts);
    Uncons(Token(LParen, "("), inner + close);
    Uncons(Token(RParen, ")"), after);
    assert ParsePrimary([Token(Ident, name)] + ts, pf) == ParseIdentLike(name, ts, pf);
    assert ParseIdentLike(name, ts, pf) == ParseCallOrAggr(name, inner + close, pf);
    if args == [] {
      assert inner + close == close;
    }
    assert Expect(close, RParen) == Ok(")", after);
  }

  lemma CallTokens(name: string, inner: seq<Token>, after: seq<Token>)
    ensures [Token(Ident, name), Token(LParen, "(")] + inner + [Token(RParen, ")")] + after ==
            [Token(Ident, name)] + ([Token(LParen, "(")] + (inner + ([Token(RParen, ")")] + after)))
  {}

  lemma {:induction false} CallRoundTrip(name: string, args: seq<Node>, pf: ParseFloat, fmt: FormatFloat, rest: seq<Token>)
    requires WellFormed(Call(name, args), pf, fmt)
    ensures ParsePrimary(Body(Call(name, args), fmt) + rest, pf) == Ok(Call(name, args), rest)
    decreases args, 8, 0
  {
    hide ParsePrimary, ParseArgs, IsAggrName, PrintArgs;
    var close := [Token(RParen, ")")] + rest;
    if args != [] {
      ArgsRoundTrip([], args, pf, fmt, close);
      assert [] + args == args;
      FirstArg(args, pf, fmt, close);
    } else {
      NoArgs(fmt);
    }
    CallStep(name, PrintArgs(args, fmt), args, rest, pf);
    CallTokens(name, PrintArgs(args, fmt), rest);
  }

  lemma NoArgs(fmt: FormatFloat)
    ensures PrintArgs([], fmt) == []
  {}

  /** The first token of a printed expression never closes a bracket. */
  lemma {:induction false} FirstToken(n: Node, level: nat, pf: ParseFloat, fmt: FormatFloat)
    requires WellFormed(n, pf, fmt)
    ensures At(PrintExpr(n, level, fmt), {Number, Ident, LParen})
    decreases n
  {
    if n.Bin? {
      FirstToken(n.left, LeftLevel(Prec(n)), pf, fmt);
    }
  }

  lemma FirstArg(args: seq<Node>, pf: ParseFloat, fmt: FormatFloat, rest: seq<Token>)
    requires args != [] && forall a <- args :: WellFormed(a, pf, fmt)
    ensures !At(PrintArgs(args, fmt) + rest, {RParen})
  {
    FirstToken(args[0], 0, pf, fmt);
  }

  lemma {:induction false} ArgsRoundTrip(done: seq<Node>, args: seq<Node>, pf: ParseFloat, fmt: FormatFloat, rest: seq<Token>)
    requires args != [] && At(rest, {RParen}) && forall a <- args :: WellFormed(a, pf, fmt)
    ensures ParseArgs(done, PrintArgs(args, fmt) + rest, pf) == Ok(done + args, rest)
    decreases args, 7, 0
  {
    hide Tail, Body, WellFormed, CmpTail, ParseExpr, ParseArgs, PrintExpr, Rank;
    var more := PrintArgs(args[1..], fmt) + rest;
    var after := if |args| == 1 then rest else [Token(Comma, ",")] + more;
    assert PrintArgs(args, fmt) + rest == PrintExpr(args[0], 0, fmt) + after;
    TailKinds(args[0], 0);
    ExprRoundTrip(args[0], pf, fmt, after);
    CmpStop(args[0], after, pf);
    ArgStep(done, PrintArgs(args, fmt) + rest, args[0], after, pf);
    if |args| == 1 {
      assert args == [args[0]];
    } else {
      assert after[1..] == more;
      ArgsRoundTrip(done + [args[0]], args[1..], pf, fmt, rest);
      assert done + args == done + [args[0]] + args[1..];
    }
  }

  lemma AggrBody(n: Node, fmt: FormatFloat, rest: seq<Token>)
    requires n.Aggr?
    ensures Body(n, fmt) + rest ==
      [Token(Ident, n.op)] + ([Token(LParen, "(")] + ((PrintPhi(n.phi, fmt) + PrintExpr(n.arg, 0, fmt))
      + ([Token(RParen, ")")] + (PrintModifier(n.byLabels, n.withoutLabels) + rest))))
  {
    hide PrintPhi, PrintExpr, PrintModifier;
  }

  lemma FinishAggrStep(op: string, arg: Node, phi: Option<real>, ts: seq<Token>)
    requires IsAggrName(op) && (op == "quantile" <==> phi.Some?)
    ensures FinishAggr(op, if phi.Some? then [Num(phi.value), arg] else [arg], ts) == ParseModifier(op, arg, phi, ts)
  {
    hide ParseModifier;
  }

  /** A printed aggregation, up to its optional modifier. */
  lemma {:induction false} AggrStep(op: string, arg: Node, labs: seq<string>, wlabs: seq<string>,
          phi: Option<real>, pf: ParseFloat, fmt: FormatFloat, rest: seq<Token>)
    requires WellFormed(Aggr(op, arg, labs, wlabs, phi), pf, fmt)
    ensures ParsePrimary(Body(Aggr(op, arg, labs, wlabs, phi), fmt) + rest, pf)
         == ParseModifier(op, arg, phi, PrintModifier(labs, wlabs) + rest)
    decreases arg, 20, 0
  {
    var n := Aggr(op, arg, labs, wlabs, phi);
    var inner := PrintPhi(phi, fmt) + PrintExpr(arg, 0, fmt);
    var after := PrintModifier(labs, wlabs) + rest;
    var args := if phi.Some? then [Num(phi.value), arg] else [arg];
    AggrArgs(arg, phi, pf, fmt, [Token(RParen, ")")] + after);
    FinishAggrStep(op, arg, phi, after);
    hide ParsePrimary, ParseArgs, PrintModifier, PrintPhi, PrintExpr, ParseModifier, WellFormed, FinishAggr, IsAggrName;
    CallStep(op, inner, args, after, pf);
    AggrBody(n, fmt, rest);
  }

  lemma {:induction false} AggrRoundTrip(op: string, arg: Node, labs: seq<string>, wlabs: seq<string>,
          phi: Option<real>, pf: ParseFloat, fmt: FormatFloat, rest: seq<Token>)
    requires WellFormed(Aggr(op, arg, labs, wlabs, phi), pf, fmt)
    requires labs == [] && wlabs == [] ==> !At(rest, {By, Without})
    ensures ParsePrimary(Body(Aggr(op, arg, labs, wlabs, phi), fmt) + rest, pf) == Ok(Aggr(op, arg, labs, wlabs, phi), rest)
    decreases arg, 20, 1
  {
    hide ParsePrimary, Body, ParseModifier, PrintModifier;
    AggrStep(op, arg, labs, wlabs, phi, pf, fmt, rest);
    ModifierRoundTrip(op, arg, labs, wlabs, phi, rest);
  }

  lemma PhiTokens(phi: Option<real>, fmt: FormatFloat, a: seq<Token>, b: seq<Token>)
    requires phi.Some?
    ensures PrintPhi(phi, fmt) + a + b == [Token(Number, fmt(phi.value))] + ([Token(Comma, ",")] + (a + b))
  {}

  lemma {:induction false} AggrArgs(arg: Node, phi: Option<real>, pf: ParseFloat, fmt: FormatFloat, close: seq<Token>)
    requires WellFormed(arg, pf, fmt) && At(close, {RParen})
    requires phi.Some? ==> pf(fmt(phi.value)) == phi
    ensures var ts := PrintPhi(phi, fmt) + PrintExpr(arg, 0, fmt) + close;
            && !At(ts, {RParen})
            && ParseArgs([], ts, pf) == Ok(if phi.Some? then [Num(phi.value), arg] else [arg], close)
    decreases arg, 15, 0
  {
    hide Body, WellFormed, Tail, ParseExpr, ParseArgs, PrintExpr, Rank;
    var inner := PrintExpr(arg, 0, fmt) + close;
    RankBound(arg);
    FirstToken(arg, 0, pf, fmt);
    TailKinds(arg, 0);
    ExprRoundTrip(arg, pf, fmt, close);
    CmpStop(arg, close, pf);
    if phi.None? {
      assert PrintPhi(phi, fmt) + PrintExpr(arg, 0, fmt) + close == inner;
      ArgStep([], inner, arg, close, pf);
      assert [] + [arg] == [arg];
    } else {
      var tail := [Token(Comma, ",")] + inner;
      PhiTokens(phi, fmt, PrintExpr(arg, 0, fmt), close);
      Uncons(Token(Comma, ","), inner);
      NumberStep(phi.value, tail, pf, fmt);
      ArgStep([], [Token(Number, fmt(phi.value))] + tail, Num(phi.value), tail, pf);
      assert [] + [Num(phi.value)] == [Num(phi.value)];
      ArgStep([Num(phi.value)], inner, arg, close, pf);
      assert [Num(phi.value)] + [arg] == [Num(phi.value), arg];
    }
  }

  lemma {:induction false} MulRoundTrip(n: Node, pf: ParseFloat, fmt: FormatFloat, rest: seq<Token>)
    requires WellFormed(n, pf, fmt) && !At(rest, Tail(n, 2))
    ensures ParseMul(PrintExpr(n, 2, fmt) + rest, pf) == MulLoop(n, rest, pf)
    decreases n, Rank(n, 2), 0
  {
    hide WellFormed, Tail, PrintExpr, Body, OpKind, ParseMul, ParsePrimary, MulLoop;
    if Prec(n) == 2 {
      BinaryParts(n, pf, fmt);
      PrintBinary(n, 2, fmt, rest);
      var op, after := Token(OpKind(n.binop).value, n.binop), PrintExpr(n.right, 3, fmt) + rest;
      TailKinds(n.left, 2);
      MulRoundTrip(n.left, pf, fmt, [op] + after);
      PrimaryRoundTrip(n.right, pf, fmt, rest);
      MulStep(n.left, op, after, n.right, rest, pf);
    } else {
      PrintLevels(n, 2, fmt);
      PrimaryRoundTrip(n, pf, fmt, rest);
      MulFirst(PrintExpr(n, 2, fmt) + rest, n, rest, pf);
    }
  }

  lemma {:induction false} AddRoundTrip(n: Node, pf: ParseFloat, fmt: FormatFloat, rest: seq<Token>)
    requires WellFormed(n, pf, fmt) && !At(rest, Tail(n, 1) + MulKinds)
    ensures ParseAdd(PrintExpr(n, 1, fmt) + rest, pf) == AddLoop(n, rest, pf)
    decreases n, Rank(n, 1), 0
  {
    hide WellFormed, Tail, PrintExpr, Body, OpKind, ParseMul, ParseAdd, AddLoop, MulLoop;
    if Prec(n) == 1 {
      BinaryParts(n, pf, fmt);
      PrintBinary(n, 1, fmt, rest);
      var op, after := Token(OpKind(n.binop).value, n.binop), PrintExpr(n.right, 2, fmt) + rest;
      TailKinds(n.left, 1);
      AddRoundTrip(n.left, pf, fmt, [op] + after);
      MulRoundTrip(n.right, pf, fmt, rest);
      MulStop(n.right, rest, pf);
      AddStep(n.left, op, after, n.right, rest, pf);
    } else {
      PrintLevels(n, 1, fmt);
      MulRoundTrip(n, pf, fmt, rest);
      MulStop(n, rest, pf);
      AddFirst(PrintExpr(n, 1, fmt) + rest, n, rest, pf);
    }
  }

  /** At the top: a comparison is complete, anything else may still be compared. */
  lemma {:induction false} ExprRoundTrip(n: Node, pf: ParseFloat, fmt: FormatFloat, rest: seq<Token>)
    requires WellFormed(n, pf, fmt) && !At(rest, Tail(n, 0) + (MulKinds + AddKinds))
    ensures ParseExpr(PrintExpr(n, 0, fmt) + rest, pf) == if Prec(n) == 0 then Ok(n, rest) else CmpTail(n, rest, pf)
    decreases n, Rank(n, 0), 0
  {
    hide WellFormed, Tail, PrintExpr, Body, OpKind, ParseAdd, ParseExpr, AddLoop, CmpTail;
    if Prec(n) == 0 {
      BinaryParts(n, pf, fmt);
      PrintBinary(n, 0, fmt, rest);
      var op, after := Token(OpKind(n.binop).value, n.binop), PrintExpr(n.right, 1, fmt) + rest;
      TailKinds(n.left, 1);
      AddRoundTrip(n.left, pf, fmt, [op] + after);
      AddStop(n.left, [op] + after, pf);
      AddRoundTrip(n.right, pf, fmt, rest);
      AddStop(n.right, rest, pf);
      ExprFirst(PrintExpr(n, 0, fmt) + rest, n.left, [op] + after, pf);
      CmpStep(n.left, op, after, n.right, rest, pf);
    } else {
      PrintLevels(n, 0, fmt);
      AddRoundTrip(n, pf, fmt, rest);
      AddStop(n, rest, pf);
      ExprFirst(PrintExpr(n, 0, fmt) + rest, n, rest, pf);
    }
  }

  // ---------- tokens that continue an expression ----------

  /** The parser goes past the start of `rest`, or fails there. */
  predicate Eats(r: Parsed<Node>, rest: seq<Token>) {
    r.Ok? ==> |r.rest| < |rest|
  }

  lemma VectorEats(v: Selector, pf: ParseFloat, fmt: FormatFloat, rest: seq<Token>)
    requires At(rest, Tail(Vector(v), 3))
    ensures Eats(ParsePrimary(Body(Vector(v), fmt) + rest, pf), rest)
  {
    hide ParseMatchers, ParseDuration, ParseCallOrAggr;
    if v.matches == [] {
      assert PrintSelector(v) + rest == [Token(Ident, v.metric)] + rest;
      Uncons(Token(Ident, v.metric), rest);
      assert ParsePrimary([Token(Ident, v.metric)] + rest, pf) == ParseIdentLike(v.metric, rest, pf);
    } else {
      hide PrintSelector, ParsePrimary;
      SelectorRoundTrip(v, pf, rest);
    }
  }

  lemma AggrEats(n: Node, pf: ParseFloat, fmt: FormatFloat, rest: seq<Token>)
    requires n.Aggr? && WellFormed(n, pf, fmt) && At(rest, Tail(n, 3))
    ensures Eats(ParsePrimary(Body(n, fmt) + rest, pf), rest)
  {
    AggrStep(n.op, n.arg, n.byLabels, n.withoutLabels, n.phi, pf, fmt, rest);
    assert PrintModifier(n.byLabels, n.withoutLabels) + rest == rest;
    hide ParsePrimary, Body, ParseLabels;
  }

  lemma PrimaryEats(n: Node, pf: ParseFloat, fmt: FormatFloat, rest: seq<Token>)
    requires WellFormed(n, pf, fmt) && At(rest, Tail(n, 3))
    ensures Eats(ParsePrimary(PrintExpr(n, 3, fmt) + rest, pf), rest)
  {
    hide ParsePrimary, Body, WellFormed;
    if n.Vector? {
      VectorEats(n.v, pf, fmt, rest);
    } else if n.Aggr? {
      AggrEats(n, pf, fmt, rest);
    }
  }

  lemma MulGoesOn(left: Node, op: Token, after: seq<Token>, rest: seq<Token>, pf: ParseFloat)
    requires op.kind in MulKinds && Eats(ParsePrimary(after, pf), rest)
    ensures Eats(MulLoop(left, [op] + after, pf), rest)
  {
    Uncons(op, after);
    hide ParsePrimary;
  }

  lemma AddGoesOn(left: Node, op: Token, after: seq<Token>, rest: seq<Token>, pf: ParseFloat)
    requires op.kind in AddKinds && Eats(ParseMul(after, pf), rest)
    ensures Eats(AddLoop(left, [op] + after, pf), rest)
  {
    Uncons(op, after);
    hide ParseMul;
  }

  lemma CmpGoesOn(left: Node, op: Token, after: seq<Token>, rest: seq<Token>, pf: ParseFloat)
    requires op.kind in CmpKinds && Eats(ParseAdd(after, pf), rest)
    ensures Eats(CmpTail(left, [op] + after, pf), rest)
  {
    Uncons(op, after);
    hide ParseAdd;
  }

  /** An operator at the start of what is left is taken. */
  lemma OperatorEats(n: Node, rest: seq<Token>, pf: ParseFloat)
    ensures At(rest, MulKinds) ==> Eats(MulLoop(n, rest, pf), rest)
    ensures At(rest, AddKinds) ==> Eats(AddLoop(n, rest, pf), rest)
    ensures At(rest, CmpKinds) ==> Eats(CmpTail(n, rest, pf), rest)
  {
    hide ParsePrimary, ParseMul, ParseAdd;
  }

  lemma {:induction false} MulEats(n: Node, pf: ParseFloat, fmt: FormatFloat, rest: seq<Token>)
    requires WellFormed(n, pf, fmt) && At(rest, Tail(n, 2) + MulKinds)
    ensures Eats(ParseMul(PrintExpr(n, 2, fmt) + rest, pf), rest)
  {
    TailKinds(n, 2);
    hide WellFormed, Tail, PrintExpr, Body, OpKind, ParsePrimary, MulLoop, Prec;
    if At(rest, MulKinds) {
      MulRoundTrip(n, pf, fmt, rest);
      OperatorEats(n, rest, pf);
    } else if Prec(n) == 2 {
      BinaryParts(n, pf, fmt);
      PrintBinary(n, 2, fmt, rest);
      var op, after := Token(OpKind(n.binop).value, n.binop), PrintExpr(n.right, 3, fmt) + rest;
      TailKinds(n.left, 2);
      MulRoundTrip(n.left, pf, fmt, [op] + after);
      PrimaryEats(n.right, pf, fmt, rest);
      MulGoesOn(n.left, op, after, rest, pf);
    } else {
      PrintLevels(n, 2, fmt);
      PrimaryEats(n, pf, fmt, rest);
    }
  }

  lemma {:induction false} AddEats(n: Node, pf: ParseFloat, fmt: FormatFloat, rest: seq<Token>)
    requires WellFormed(n, pf, fmt) && At(rest, Tail(n, 1) + (MulKinds + AddKinds))
    ensures Eats(ParseAdd(PrintExpr(n, 1, fmt) + rest, pf), rest)
  {
    TailKinds(n, 1);
    hide WellFormed, Tail, PrintExpr, Body, OpKind, ParseMul, AddLoop, Prec;
    if At(rest, AddKinds) {
      AddRoundTrip(n, pf, fmt, rest);
      OperatorEats(n, rest, pf);
    } else if Prec(n) == 1 {
      BinaryParts(n, pf, fmt);
      PrintBinary(n, 1, fmt, rest);
      var op, after := Token(OpKind(n.binop).value, n.binop), PrintExpr(n.right, 2, fmt) + rest;
      TailKinds(n.left, 1);
      AddRoundTrip(n.left, pf, fmt, [op] + after);
      MulEats(n.right, pf, fmt, rest);
      AddGoesOn(n.left, op, after, rest, pf);
    } else {
      PrintLevels(n, 1, fmt);
      MulEats(n, pf, fmt, rest);
    }
  }

  lemma KindsApart(n: Node, rest: seq<Token>)
    requires At(rest, Continues(n))
    ensures if At(rest, CmpKinds) then Prec(n) != 0 && !At(rest, Tail(n, 0) + (MulKinds + AddKinds))
            else At(rest, Tail(n, 0) + (MulKinds + AddKinds))
    ensures Prec(n) == 0 ==> !At(rest, CmpKinds)
  {
    TailKinds(n, 0);
    hide Tail, Prec;
  }

  lemma {:induction false} ExprEats(n: Node, pf: ParseFloat, fmt: FormatFloat, rest: seq<Token>)
    requires WellFormed(n, pf, fmt) && At(rest, Continues(n))
    ensures Eats(ParseExpr(PrintExpr(n, 0, fmt) + rest, pf), rest)
  {
    KindsApart(n, rest);
    hide Continues, WellFormed, Tail, PrintExpr, Body, OpKind, ParseAdd, CmpTail, Prec, AddLoop;
    if At(rest, CmpKinds) {
      ExprRoundTrip(n, pf, fmt, rest);
      OperatorEats(n, rest, pf);
    } else if Prec(n) == 0 {
      BinaryParts(n, pf, fmt);
      PrintBinary(n, 0, fmt, rest);
      var op, after := Token(OpKind(n.binop).value, n.binop), PrintExpr(n.right, 1, fmt) + rest;
      TailKinds(n.left, 1);
      AddRoundTrip(n.left, pf, fmt, [op] + after);
      AddStop(n.left, [op] + after, pf);
      AddEats(n.right, pf, fmt, rest);
      ExprFirst(PrintExpr(n, 0, fmt) + rest, n.left, [op] + after, pf);
      CmpGoesOn(n.left, op, after, rest, pf);
    } else {
      PrintLevels(n, 0, fmt);
      AddEats(n, pf, fmt, rest);
    }
  }

  /** Parsing undoes printing: the tree comes back and the remainder is left alone if and only if
      the first token of the remainder is not of a kind that continues the expression. */
  lemma ParsePrinted(n: Node, pf: ParseFloat, fmt: FormatFloat, rest: seq<Token>)
    requires WellFormed(n, pf, fmt)
    ensures ParseExpr(PrintExpr(n, 0, fmt) + rest, pf) == Ok(n, rest) <==> !At(rest, Continues(n))
  {
    hide WellFormed, Tail, PrintExpr, ParseExpr, CmpTail, Prec;
    if At(rest, Continues(n)) {
      ExprEats(n, pf, fmt, rest);
    } else {
      ExprRoundTrip(n, pf, fmt, rest);
      if Prec(n) != 0 {
        CmpStop(n, rest, pf);
      }
    }
  }

  // ---------- the trees the parser can produce ----------

  /** Operator tokens carry their own text, as the lexer makes them. */
  predicate Consistent(ts: seq<Token>) {
    forall t <- ts | t.kind in CmpKinds + AddKinds + MulKinds :: OpKind(t.val) == Some(t.kind)
  }

  /** Every float that `pf` can return prints to a text that reads back. */
  ghost predicate Faithful(pf: ParseFloat, fmt: FormatFloat) {
    forall s :: pf(s).Some? ==> pf(fmt(pf(s).value)) == pf(s)
  }

  ghost predicate Good(r: Parsed<Node>, pf: ParseFloat, fmt: FormatFloat) {
    r.Ok? ==> WellFormed(r.value, pf, fmt) && Consistent(r.rest)
  }

  lemma OpToken(ts: seq<Token>)
    requires Consistent(ts) && At(ts, CmpKinds + AddKinds + MulKinds)
    ensures OpKind(ts[0].val).Some? && Consistent(ts[1..])
  {
    assert ts[0] in ts;
  }

  lemma BinaryGood(ts: seq<Token>, left: Node, right: Node, pf: ParseFloat, fmt: FormatFloat)
    requires Consistent(ts) && At(ts, CmpKinds + AddKinds + MulKinds)
    requires WellFormed(left, pf, fmt) && WellFormed(right, pf, fmt)
    ensures WellFormed(Bin(ts[0].val, left, right), pf, fmt)
  {}

  lemma {:induction false} ExprGood(ts: seq<Token>, pf: ParseFloat, fmt: FormatFloat)
    requires Consistent(ts) && Faithful(pf, fmt)
    ensures Good(ParseExpr(ts, pf), pf, fmt)
    decreases |ts|, 8
  {
    hide Consistent, Faithful, OpKind, WellFormed, ParseAdd;
    AddGood(ts, pf, fmt);
    match ParseAdd(ts, pf)
    case Err =>
    case Ok(left, rest) =>
      if At(rest, CmpKinds) {
        OpToken(rest);
        AddGood(rest[1..], pf, fmt);
        match ParseAdd(rest[1..], pf)
        case Err =>
        case Ok(right, _) => BinaryGood(rest, left, right, pf, fmt);
      }
  }

  lemma {:induction false} AddGood(ts: seq<Token>, pf: ParseFloat, fmt: FormatFloat)
    requires Consistent(ts) && Faithful(pf, fmt)
    ensures Good(ParseAdd(ts, pf), pf, fmt)
    decreases |ts|, 6
  {
    hide Consistent, Faithful, OpKind, WellFormed, ParseMul, AddLoop;
    MulGood(ts, pf, fmt);
    match ParseMul(ts, pf)
    case Err =>
    case Ok(left, rest) => AddLoopGood(left, rest, pf, fmt);
  }

  lemma {:induction false} AddLoopGood(left: Node, ts: seq<Token>, pf: ParseFloat, fmt: FormatFloat)
    requires Consistent(ts) && Faithful(pf, fmt) && WellFormed(left, pf, fmt)
    ensures Good(AddLoop(left, ts, pf), pf, fmt)
    decreases |ts|, 5
  {
    hide Consistent, Faithful, OpKind, WellFormed, ParseMul;
    if At(ts, AddKinds) {
      OpToken(ts);
      MulGood(ts[1..], pf, fmt);
      match ParseMul(ts[1..], pf)
      case Err =>
      case Ok(right, rest) =>
        BinaryGood(ts, left, right, pf, fmt);
        AddLoopGood(Bin(ts[0].val, left, right), rest, pf, fmt);
    }
  }

  lemma {:induction false} MulGood(ts: seq<Token>, pf: ParseFloat, fmt: FormatFloat)
    requires Consistent(ts) && Faithful(pf, fmt)
    ensures Good(ParseMul(ts, pf), pf, fmt)
    decreases |ts|, 4
  {
    hide Consistent, Faithful, OpKind, WellFormed, ParsePrimary, MulLoop;
    PrimaryGood(ts, pf, fmt);
    match ParsePrimary(ts, pf)
    case Err =>
    case Ok(left, rest) => MulLoopGood(left, rest, pf, fmt);
  }

  lemma {:induction false} MulLoopGood(left: Node, ts: seq<Token>, pf: ParseFloat, fmt: FormatFloat)
    requires Consistent(ts) && Faithful(pf, fmt) && WellFormed(left, pf, fmt)
    ensures Good(MulLoop(left, ts, pf), pf, fmt)
    decreases |ts|, 3
  {
    hide Consistent, Faithful, OpKind, WellFormed, ParsePrimary;
    if At(ts, MulKinds) {
      OpToken(ts);
      PrimaryGood(ts[1..], pf, fmt);
      match ParsePrimary(ts[1..], pf)
      case Err =>
      case Ok(right, rest) =>
        BinaryGood(ts, left, right, pf, fmt);
        MulLoopGood(Bin(ts[0].val, left, right), rest, pf, fmt);
    }
  }

  lemma {:induction false} PrimaryGood(ts: seq<Token>, pf: ParseFloat, fmt: FormatFloat)
    requires Consistent(ts) && Faithful(pf, fmt)
    ensures Good(ParsePrimary(ts, pf), pf, fmt)
    decreases |ts|, 2
  {
    if ts != [] {
      hide Consistent;
      if At(ts, {Number}) {
      } else if At(ts, {LParen}) {
        GroupGood(ts[1..], pf, fmt);
      } else if At(ts, {Ident}) {
        IdentGood(ts[0].val, ts[1..], pf, fmt);
      }
    }
  }

  lemma ExpectGood(ts: seq<Token>, k: Kind)
    requires Consistent(ts)
    ensures var r := Expect(ts, k); r.Ok? ==> Consistent(r.rest)
  {}

  lemma {:induction false} GroupGood(ts: seq<Token>, pf: ParseFloat, fmt: FormatFloat)
    requires Consistent(ts) && Faithful(pf, fmt)
    ensures Good(ParseGroup(ts, pf), pf, fmt)
    decreases |ts|, 9
  {
    hide Consistent, Faithful, WellFormed, Expect;
    ExprGood(ts, pf, fmt);
    match ParseExpr(ts, pf)
    case Err =>
    case Ok(_, rest) => ExpectGood(rest, RParen);
  }

  lemma {:induction false} IdentGood(name: string, ts: seq<Token>, pf: ParseFloat, fmt: FormatFloat)
    requires Consistent(ts) && Faithful(pf, fmt)
    ensures Good(ParseIdentLike(name, ts, pf), pf, fmt)
    decreases |ts|, 12
  {
    hide Faithful, WellFormed;
    if At(ts, {LParen}) {
      CallGood(name, ts[1..], pf, fmt);
    } else {
      SelectorGood(name, ts, pf, fmt);
    }
  }

  lemma {:induction false} CallGood(name: string, ts: seq<Token>, pf: ParseFloat, fmt: FormatFloat)
    requires Consistent(ts) && Faithful(pf, fmt)
    ensures Good(ParseCallOrAggr(name, ts, pf), pf, fmt)
    decreases |ts|, 11
  {
    hide Consistent, Faithful, Expect, IsAggrName, FinishAggr;
    if !At(ts, {RParen}) {
      ArgsGood([], ts, pf, fmt);
    }
    match if At(ts, {RParen}) then Ok([], ts) else ParseArgs([], ts, pf)
    case Err =>
    case Ok(args, rest) =>
      ExpectGood(rest, RParen);
      match Expect(rest, RParen)
      case Err =>
      case Ok(_, rest') => if IsAggrName(name) { AggrGood(name, args, rest', pf, fmt); }
  }

  lemma {:induction false} ArgsGood(done: seq<Node>, ts: seq<Token>, pf: ParseFloat, fmt: FormatFloat)
    requires Consistent(ts) && Faithful(pf, fmt) && forall a <- done :: WellFormed(a, pf, fmt)
    ensures var r := ParseArgs(done, ts, pf);
            r.Ok? ==> (forall a <- r.value :: WellFormed(a, pf, fmt)) && Consistent(r.rest)
    decreases |ts|, 10
  {
    hide Faithful, WellFormed;
    ExprGood(ts, pf, fmt);
    match ParseExpr(ts, pf)
    case Err =>
    case Ok(a, rest) => if At(rest, {Comma}) { ArgsGood(done + [a], rest[1..], pf, fmt); }
  }

  lemma AggrGood(name: string, args: seq<Node>, ts: seq<Token>, pf: ParseFloat, fmt: FormatFloat)
    requires Consistent(ts) && IsAggrName(name) && forall a <- args :: WellFormed(a, pf, fmt)
    ensures Good(FinishAggr(name, args, ts), pf, fmt)
  {
    var r := FinishAggr(name, args, ts);
    if r.Ok? {
      var phi := if name == "quantile" then Some(args[0].value) else None;
      var arg := if name == "quantile" then args[1] else args[0];
      assert arg in args && (phi.Some? ==> args[0] in args && WellFormed(Num(phi.value), pf, fmt));
      ModifierGood(name, arg, phi, ts);
    }
  }

  lemma ModifierGood(name: string, arg: Node, phi: Option<real>, ts: seq<Token>)
    requires Consistent(ts)
    ensures var r := ParseModifier(name, arg, phi, ts);
            r.Ok? ==> && r.value.Aggr? && r.value.op == name && r.value.arg == arg && r.value.phi == phi
                      && (r.value.byLabels == [] || r.value.withoutLabels == []) && Consistent(r.rest)
  {
    hide ParseLabels;
    if At(ts, {By, Without}) && Expect(ts[1..], LParen).Ok? {
      LabelsGood([], Expect(ts[1..], LParen).rest);
    }
  }

  lemma {:induction false} LabelsGood(done: seq<string>, ts: seq<Token>)
    requires Consistent(ts)
    ensures var r := ParseLabels(done, ts); r.Ok? ==> Consistent(r.rest)
    decreases |ts|
  {
    if At(ts, {Ident}) && At(ts[1..], {Comma}) {
      LabelsGood(done + [ts[0].val], ts[1..][1..]);
    }
  }

  lemma {:induction false} MatchersGood(done: seq<Matcher>, ts: seq<Token>)
    requires Consistent(ts)
    ensures var r := ParseMatchers(done, ts); r.Ok? ==> Consistent(r.rest)
    decreases |ts|
  {
    if !At(ts, {RBrace}) && |ts| >= 3 && ts[0].kind == Ident && OpOf(ts[1..][0].kind).Some? && ts[1..][1..][0].kind == Str {
      var rest := ts[1..][1..][1..];
      assert Consistent(rest);
      MatchersGood(done + [Matcher(ts[0].val, OpOf(ts[1..][0].kind).value, ts[1..][1..][0].val)], if At(rest, {Comma}) then rest[1..] else rest);
    }
  }

  lemma SelectorGood(metric: string, ts: seq<Token>, pf: ParseFloat, fmt: FormatFloat)
    requires Consistent(ts)
    ensures Good(ParseSelectorTail(metric, ts, pf), pf, fmt)
  {
    hide ParseMatchers;
    if At(ts, {LBrace}) {
      MatchersGood([], ts[1..]);
    }
  }

  lemma ConsistentConcat(a: seq<Token>, b: seq<Token>)
    requires Consistent(a) && Consistent(b)
    ensures Consistent(a + b)
  {}

  lemma ConsistentAround(a: seq<Token>, b: seq<Token>, c: seq<Token>)
    requires Consistent(a) && Consistent(b) && Consistent(c)
    ensures Consistent(a + b + c)
  {}

  lemma {:induction false} PrintedConsistent(n: Node, level: nat, pf: ParseFloat, fmt: FormatFloat)
    requires WellFormed(n, pf, fmt)
    ensures Consistent(PrintExpr(n, level, fmt))
    decreases n, 1
  {
    BodyConsistent(n, pf, fmt);
    ConsistentAround([Token(LParen, "(")], Body(n, fmt), [Token(RParen, ")")]);
  }

  lemma {:induction false} BodyConsistent(n: Node, pf: ParseFloat, fmt: FormatFloat)
    requires WellFormed(n, pf, fmt)
    ensures Consistent(Body(n, fmt))
    decreases n, 0
  {
    hide Consistent, PrintExpr, PrintOp, PrintArgs, PrintModifier, PrintPhi, PrintSelector;
    match n
    case Bin(op, l, r) =>
      PrintedConsistent(l, LeftLevel(Prec(n)), pf, fmt);
      PrintedConsistent(r, RightLevel(Prec(n)), pf, fmt);
      OpConsistent(op);
      ConsistentAround(PrintExpr(l, LeftLevel(Prec(n)), fmt), PrintOp(op), PrintExpr(r, RightLevel(Prec(n)), fmt));
    case Call(name, args) =>
      PrintedArgsConsistent(args, pf, fmt);
      OpenCallConsistent(name);
      ConsistentAround([Token(Ident, name), Token(LParen, "(")], PrintArgs(args, fmt), [Token(RParen, ")")]);
    case Aggr(op, arg, labs, wlabs, phi) =>
      PrintedConsistent(arg, 0, pf, fmt);
      PrintedModifierConsistent(labs, wlabs);
      OpenCallConsistent(op);
      PhiConsistent(phi, fmt);
      var inner := [Token(Ident, op), Token(LParen, "(")] + PrintPhi(phi, fmt) + PrintExpr(arg, 0, fmt);
      ConsistentAround([Token(Ident, op), Token(LParen, "(")], PrintPhi(phi, fmt), PrintExpr(arg, 0, fmt));
      ConsistentAround(inner, [Token(RParen, ")")], PrintModifier(labs, wlabs));
    case Vector(v) => PrintedSelectorConsistent(v);
    case Range(v, _, text) =>
      PrintedSelectorConsistent(v);
      RangeConsistent(text);
      ConsistentConcat(PrintSelector(v), [Token(LBracket, "["), Token(Duration, text), Token(RBracket, "]")]);
    case Num(v) => NumberConsistent(fmt(v));
  }

  lemma OpenCallConsistent(name: string)
    ensures Consistent([Token(Ident, name), Token(LParen, "(")]) && Consistent([Token(RParen, ")")])
  {}

  lemma PhiConsistent(phi: Option<real>, fmt: FormatFloat)
    ensures Consistent(PrintPhi(phi, fmt))
  {}

  lemma RangeConsistent(text: string)
    ensures Consistent([Token(LBracket, "["), Token(Duration, text), Token(RBracket, "]")])
  {}

  lemma NumberConsistent(text: string)
    ensures Consistent([Token(Number, text)])
  {}

  lemma OpConsistent(op: string)
    ensures Consistent(PrintOp(op))
  {}

  lemma PrintedModifierConsistent(labs: seq<string>, wlabs: seq<string>)
    ensures Consistent(PrintModifier(labs, wlabs))
  {
    PrintedLabelsConsistent(labs);
    PrintedLabelsConsistent(wlabs);
    hide PrintLabels;
    ConsistentAround([Token(By, "by"), Token(LParen, "(")], PrintLabels(labs), [Token(RParen, ")")]);
    ConsistentAround([Token(Without, "without"), Token(LParen, "(")], PrintLabels(wlabs), [Token(RParen, ")")]);
  }

  lemma PrintedSelectorConsistent(v: Selector)
    ensures Consistent(PrintSelector(v))
  {
    PrintedMatchersConsistent(v.matches);
    hide PrintMatchers;
    ConsistentAround([Token(LBrace, "{")], PrintMatchers(v.matches), [Token(RBrace, "}")]);
  }

  lemma {:induction false} PrintedArgsConsistent(args: seq<Node>, pf: ParseFloat, fmt: FormatFloat)
    requires forall a <- args :: WellFormed(a, pf, fmt)
    ensures Consistent(PrintArgs(args, fmt))
    decreases args, 2
  {
    if args != [] {
      PrintedConsistent(args[0], 0, pf, fmt);
      PrintedArgsConsistent(args[1..], pf, fmt);
    }
  }

  lemma {:induction false} PrintedLabelsConsistent(labs: seq<string>)
    ensures Consistent(PrintLabels(labs))
  {
    if |labs| > 1 { PrintedLabelsConsistent(labs[1..]); }
  }

  lemma MatcherConsistent(m: Matcher)
    ensures Consistent(PrintMatcher(m)) && Consistent([Token(Comma, ",")])
  {}

  lemma {:induction false} PrintedMatchersConsistent(ms: seq<Matcher>)
    ensures Consistent(PrintMatchers(ms))
  {
    if |ms| > 1 {
      PrintedMatchersConsistent(ms[1..]);
      MatcherConsistent(ms[0]);
      hide Consistent, PrintMatcher;
      ConsistentAround(PrintMatcher(ms[0]), [Token(Comma, ",")], PrintMatchers(ms[1..]));
    } else if |ms| == 1 {
      MatcherConsistent(ms[0]);
    }
  }

  /** The well-formed trees are exactly the ones the parser produces from whole token lists. */
  lemma WellFormedIsTheImage(n: Node, pf: ParseFloat, fmt: FormatFloat)
    requires Faithful(pf, fmt)
    ensures WellFormed(n, pf, fmt) <==> exists ts :: Consistent(ts) && ParseExpr(ts, pf) == Ok(n, [])
  {
    hide WellFormed, PrintExpr, ParseExpr, Consistent, Faithful;
    if WellFormed(n, pf, fmt) {
      ParsePrinted(n, pf, fmt, []);
      PrintedConsistent(n, 0, pf, fmt);
      var ts := PrintExpr(n, 0, fmt);
      assert ts + [] == ts;
      assert Consistent(ts) && ParseExpr(ts, pf) == Ok(n, []);
    }
    forall ts | Consistent(ts) && ParseExpr(ts, pf) == Ok(n, []) ensures WellFormed(n, pf, fmt) {
      ExprGood(ts, pf, fmt);
    }
  }
}
