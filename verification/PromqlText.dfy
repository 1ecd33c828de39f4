/** From query text to syntax tree: the tokenizer and the parser together undo the printer. */
module PromqlText {
  import opened Optional
  import opened PromqlAst
  import opened PromqlLexer
  import opened PromqlParser
  import opened PromqlPrinter

  /** `Translate` up to the syntax tree; leftover tokens are ignored, as the source ignores them. */
  function ParseText(src: string, pf: ParseFloat): Option<Node> {
    match TokenizeSpec(src)
    case None => None
    case Some(ts) =>
      match ParseExpr(ts, pf)
      case Err => None
      case Ok(n, _) => Some(n)
  }

  function PrintText(n: Node, fmt: FormatFloat): string {
    Render(PrintExpr(n, 0, fmt))
  }

  /** Names, numbers and durations of the tree are words of the language. */
  predicate Writable(n: Node, fmt: FormatFloat) {
    match n
    case Num(v) => IsNumberText(fmt(v))
    case Vector(v) => WritableSelector(v)
    case Range(v, _, text) => WritableSelector(v) && IsDurationText(text)
    case Call(name, args) => IsName(name) && forall a <- args :: Writable(a, fmt)
    case Aggr(_, arg, labs, wlabs, phi) =>
      && (forall l <- labs + wlabs :: IsName(l))
      && (phi.Some? ==> IsNumberText(fmt(phi.value)))
      && Writable(arg, fmt)
    case Bin(_, l, r) => Writable(l, fmt) && Writable(r, fmt)
  }

  predicate WritableSelector(v: Selector) {
    IsName(v.metric) && forall m <- v.matches :: IsName(m.name)
  }

  // ---------- printed tokens are words, and no number touches a name ----------

  predicate Clean(ts: seq<Token>) {
    && (forall t <- ts :: Lexable(t))
    && forall i | 0 <= i < |ts| - 1 && ts[i].kind == Number :: ts[i + 1].kind != Ident
  }

  lemma {:induction false} CleanIsFoldSafe(ts: seq<Token>)
    requires Clean(ts)
    ensures FoldSafe(ts)
  {
    hide Lexable, IsDurationUnit;
    if ts != [] {
      CleanIsFoldSafe(ts[1..]);
    }
  }

  lemma CleanJoin(a: seq<Token>, b: seq<Token>)
    requires Clean(a) && Clean(b)
    requires (a != [] && a[|a| - 1].kind != Number) || (b != [] && b[0].kind != Ident)
    ensures Clean(a + b)
  {
    hide Lexable;
  }

  /** Joining around a symbol is always clean. */
  lemma CleanAround(a: seq<Token>, sep: Token, b: seq<Token>)
    requires Clean(a) && Clean(b) && Lexable(sep) && sep.kind != Number && sep.kind != Ident
    ensures Clean(a + [sep] + b)
  {
    hide Lexable;
    CleanJoin(a, [sep]);
    CleanJoin(a + [sep], b);
  }

  lemma CleanLast(a: seq<Token>, sep: Token)
    requires Clean(a) && Lexable(sep) && sep.kind != Number && sep.kind != Ident
    ensures Clean(a + [sep])
  {
    hide Lexable;
    CleanJoin(a, [sep]);
  }

  lemma Symbols()
    ensures Lexable(Token(LParen, "(")) && Lexable(Token(RParen, ")")) && Lexable(Token(Comma, ","))
    ensures Lexable(Token(LBrace, "{")) && Lexable(Token(RBrace, "}"))
    ensures Lexable(Token(LBracket, "[")) && Lexable(Token(RBracket, "]"))
    ensures Lexable(Token(By, "by")) && Lexable(Token(Without, "without"))
  {}

  lemma OpSymbol(op: string)
    requires OpKind(op).Some?
    ensures var t := Token(OpKind(op).value, op); Lexable(t) && t.kind != Number && t.kind != Ident && PrintOp(op) == [t]
  {}

  lemma AggrNameIsName(op: string)
    requires IsAggrName(op)
    ensures IsName(op)
  {}

  lemma NothingClean()
    ensures Clean([])
  {}

  lemma CleanWord(name: string)
    requires IsName(name)
    ensures Clean([Token(Ident, name)])
  {}

  lemma CleanNumber(text: string)
    requires IsNumberText(text)
    ensures Clean([Token(Number, text)])
  {}

  lemma {:induction false} ExprClean(n: Node, level: nat, pf: ParseFloat, fmt: FormatFloat)
    requires WellFormed(n, pf, fmt) && Writable(n, fmt)
    ensures Clean(PrintExpr(n, level, fmt))
    decreases n, 1
  {
    BodyClean(n, pf, fmt);
    hide Clean, Body, WellFormed, Writable, Prec;
    GroupClean(Body(n, fmt));
  }

  lemma GroupClean(body: seq<Token>)
    requires Clean(body)
    ensures Clean([Token(LParen, "(")] + body + [Token(RParen, ")")])
  {
    Symbols();
    NothingClean();
    hide Clean, Lexable;
    CleanAround([], Token(LParen, "("), body);
    assert [] + [Token(LParen, "(")] + body == [Token(LParen, "(")] + body;
    CleanLast([Token(LParen, "(")] + body, Token(RParen, ")"));
  }

  lemma {:induction false} BodyClean(n: Node, pf: ParseFloat, fmt: FormatFloat)
    requires WellFormed(n, pf, fmt) && Writable(n, fmt)
    ensures Clean(Body(n, fmt))
    decreases n, 0
  {
    hide Clean, Lexable, PrintExpr, PrintArgs, PrintSelector, PrintModifier, PrintPhi, PrintOp, IsName,
         IsNumberText, IsDurationText, IsAggrName, OpKind;
    match n
    case Num(v) => CleanNumber(fmt(v));
    case Vector(v) => SelectorClean(v);
    case Range(v, _, text) =>
      SelectorClean(v);
      RangeClean(text);
      JoinRange(PrintSelector(v), text);
    case Call(name, args) =>
      ArgsClean(args, pf, fmt);
      CallClean(name, PrintArgs(args, fmt));
    case Aggr(op, arg, labs, wlabs, phi) =>
      ExprClean(arg, 0, pf, fmt);
      AggrNameIsName(op);
      PhiClean(phi, PrintExpr(arg, 0, fmt), fmt);
      CallClean(op, PrintPhi(phi, fmt) + PrintExpr(arg, 0, fmt));
      ModifierClean(labs, wlabs);
      var call := [Token(Ident, op), Token(LParen, "(")] + (PrintPhi(phi, fmt) + PrintExpr(arg, 0, fmt)) + [Token(RParen, ")")];
      AfterParen(call, PrintModifier(labs, wlabs));
      assert [Token(Ident, op), Token(LParen, "(")] + PrintPhi(phi, fmt) + PrintExpr(arg, 0, fmt) + [Token(RParen, ")")] == call;
    case Bin(op, l, r) =>
      var p := Prec(n);
      ExprClean(l, LeftLevel(p), pf, fmt);
      ExprClean(r, RightLevel(p), pf, fmt);
      OpSymbol(op);
      CleanAround(PrintExpr(l, LeftLevel(p), fmt), Token(OpKind(op).value, op), PrintExpr(r, RightLevel(p), fmt));
  }

  lemma AfterParen(call: seq<Token>, modifier: seq<Token>)
    requires Clean(call) && Clean(modifier) && call != [] && call[|call| - 1].kind == RParen
    ensures Clean(call + modifier)
  {
    CleanJoin(call, modifier);
  }

  lemma CallClean(name: string, inner: seq<Token>)
    requires IsName(name) && Clean(inner)
    ensures Clean([Token(Ident, name), Token(LParen, "(")] + inner + [Token(RParen, ")")])
  {
    Symbols();
    CleanWord(name);
    hide Clean, Lexable, IsName;
    CleanAround([Token(Ident, name)], Token(LParen, "("), inner);
    assert [Token(Ident, name)] + [Token(LParen, "(")] + inner == [Token(Ident, name), Token(LParen, "(")] + inner;
    CleanLast([Token(Ident, name), Token(LParen, "(")] + inner, Token(RParen, ")"));
  }

  lemma PhiClean(phi: Option<real>, inner: seq<Token>, fmt: FormatFloat)
    requires (phi.Some? ==> IsNumberText(fmt(phi.value))) && Clean(inner)
    ensures Clean(PrintPhi(phi, fmt) + inner)
  {
    if phi.Some? {
      Symbols();
      CleanNumber(fmt(phi.value));
      hide Clean, Lexable, IsNumberText;
      CleanAround([Token(Number, fmt(phi.value))], Token(Comma, ","), inner);
      assert PrintPhi(phi, fmt) == [Token(Number, fmt(phi.value))] + [Token(Comma, ",")];
    } else {
      assert PrintPhi(phi, fmt) + inner == inner;
    }
  }

  lemma {:induction false} ArgsClean(args: seq<Node>, pf: ParseFloat, fmt: FormatFloat)
    requires forall a <- args :: WellFormed(a, pf, fmt) && Writable(a, fmt)
    ensures Clean(PrintArgs(args, fmt))
    decreases args, 2
  {
    if args == [] {
      NothingClean();
    } else {
      Symbols();
      ExprClean(args[0], 0, pf, fmt);
      ArgsClean(args[1..], pf, fmt);
      hide Clean, Lexable, PrintExpr;
      CleanAround(PrintExpr(args[0], 0, fmt), Token(Comma, ","), PrintArgs(args[1..], fmt));
    }
  }

  lemma {:induction false} LabelsClean(labs: seq<string>)
    requires forall l <- labs :: IsName(l)
    ensures Clean(PrintLabels(labs))
  {
    if labs == [] {
      NothingClean();
    } else {
      Symbols();
      CleanWord(labs[0]);
      LabelsClean(labs[1..]);
      hide Clean, Lexable, IsName;
      CleanAround([Token(Ident, labs[0])], Token(Comma, ","), PrintLabels(labs[1..]));
      assert [Token(Ident, labs[0])] + [Token(Comma, ",")] + PrintLabels(labs[1..])
          == [Token(Ident, labs[0]), Token(Comma, ",")] + PrintLabels(labs[1..]);
    }
  }

  lemma ModifierClean(labs: seq<string>, wlabs: seq<string>)
    requires forall l <- labs + wlabs :: IsName(l)
    ensures Clean(PrintModifier(labs, wlabs))
  {
    NothingClean();
    Symbols();
    assert forall l <- labs :: l in labs + wlabs;
    assert forall l <- wlabs :: l in labs + wlabs;
    LabelsClean(labs);
    LabelsClean(wlabs);
    WordListClean(Token(By, "by"), PrintLabels(labs));
    WordListClean(Token(Without, "without"), PrintLabels(wlabs));
  }

  lemma WordListClean(word: Token, inner: seq<Token>)
    requires Lexable(word) && word.kind != Number && word.kind != Ident && Clean(inner)
    ensures Clean([word, Token(LParen, "(")] + inner + [Token(RParen, ")")])
  {
    Symbols();
    NothingClean();
    hide Clean, Lexable;
    CleanLast([], word);
    assert [] + [word] == [word];
    CleanAround([word], Token(LParen, "("), inner);
    assert [word] + [Token(LParen, "(")] + inner == [word, Token(LParen, "(")] + inner;
    CleanLast([word, Token(LParen, "(")] + inner, Token(RParen, ")"));
  }

  lemma RangeClean(text: string)
    requires IsDurationText(text)
    ensures Clean([Token(LBracket, "["), Token(Duration, text), Token(RBracket, "]")])
  {
    Symbols();
    hide IsDurationText;
  }

  lemma JoinRange(s: seq<Token>, text: string)
    requires Clean(s) && Clean([Token(LBracket, "["), Token(Duration, text), Token(RBracket, "]")])
    ensures Clean(s + [Token(LBracket, "["), Token(Duration, text), Token(RBracket, "]")])
  {
    CleanJoin(s, [Token(LBracket, "["), Token(Duration, text), Token(RBracket, "]")]);
  }

  lemma MatcherClean(m: Matcher)
    requires IsName(m.name)
    ensures Clean(PrintMatcher(m))
  {
    hide IsName;
  }

  lemma {:induction false} MatchersClean(ms: seq<Matcher>)
    requires forall m <- ms :: IsName(m.name)
    ensures Clean(PrintMatchers(ms))
  {
    if ms == [] {
      NothingClean();
    } else {
      Symbols();
      MatcherClean(ms[0]);
      MatchersClean(ms[1..]);
      hide Clean, Lexable, PrintMatcher;
      CleanAround(PrintMatcher(ms[0]), Token(Comma, ","), PrintMatchers(ms[1..]));
    }
  }

  lemma SelectorClean(v: Selector)
    requires WritableSelector(v)
    ensures Clean(PrintSelector(v))
  {
    Symbols();
    CleanWord(v.metric);
    MatchersClean(v.matches);
    hide Clean, Lexable, PrintMatchers, IsName;
    var head, inner := [Token(Ident, v.metric)], PrintMatchers(v.matches);
    CleanAround(head, Token(LBrace, "{"), inner);
    CleanLast(head + [Token(LBrace, "{")] + inner, Token(RBrace, "}"));
    if v.matches == [] {
      assert PrintSelector(v) == head;
    } else {
      assert PrintSelector(v) == head + [Token(LBrace, "{")] + inner + [Token(RBrace, "}")];
    }
  }

  /** Tokenizing and parsing the printed text of a tree gives the tree back. */
  lemma ParseTextPrinted(n: Node, pf: ParseFloat, fmt: FormatFloat)
    requires WellFormed(n, pf, fmt) && Writable(n, fmt)
    ensures ParseText(PrintText(n, fmt), pf) == Some(n)
  {
    hide WellFormed, Writable, PrintExpr, ParseExpr, TokenizeSpec, Render;
    var ts := PrintExpr(n, 0, fmt);
    ExprClean(n, 0, pf, fmt);
    CleanIsFoldSafe(ts);
    TokenizeRendered(ts);
    ParsePrinted(n, pf, fmt, []);
    assert ts + [] == ts;
  }
}
