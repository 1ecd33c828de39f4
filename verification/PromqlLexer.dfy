/** The tokenizer of pkg/promql/lex.go, and the theorem that it undoes a renderer. Source text is
    a sequence of characters, one per byte. */
module PromqlLexer {
  import opened Optional
  import opened PromqlAst

  // ---------- character classes ----------

  predicate IsDigit(c: char) {
    '0' <= c <= '9'
  }

  predicate IsIdentStart(c: char) {
    c == '_' || 'a' <= c <= 'z' || 'A' <= c <= 'Z'
  }

  predicate IsIdentCont(c: char) {
    IsIdentStart(c) || IsDigit(c) || c == ':'
  }

  predicate IsNumberChar(c: char) {
    IsDigit(c) || c == '.'
  }

  predicate IsSpace(c: char) {
    c == ' ' || c == '\t' || c == '\n' || c == '\r'
  }

  predicate IsDurationUnit(s: string) {
    s in {"ms", "s", "m", "h", "d", "w", "y"}
  }

  // ---------- pieces ----------

  /** How many leading characters satisfy `p`. */
  function Span(src: string, p: char -> bool): (n: nat)
    ensures n <= |src|
    ensures forall i | 0 <= i < n :: p(src[i])
    ensures n < |src| ==> !p(src[n])
  {
    if src == [] || !p(src[0]) then 0 else 1 + Span(src[1..], p)
  }

  function Unescape(c: char): char {
    if c == 'n' then '\n' else if c == 't' then '\t' else c
  }

  datatype Scanned = Scanned(val: string, rest: string) | Unterminated

  /** The rest of a string literal: `done` holds what was read after the opening quote. */
  function ScanString(done: string, src: string): (r: Scanned)
    ensures r.Scanned? ==> |r.rest| < |src|
    decreases |src|
  {
    if src == [] then Unterminated
    else if src[0] == '"' then Scanned(done, src[1..])
    else if src[0] == '\\' then
      if |src| < 2 then Unterminated else ScanString(done + [Unescape(src[1])], src[2..])
    else ScanString(done + [src[0]], src[1..])
  }

  datatype Lexed = Skip(rest: string) | Tok(token: Token, rest: string) | Bad

  function Punct(c: char): Option<Kind> {
    match c
    case '{' => Some(LBrace)
    case '}' => Some(RBrace)
    case '(' => Some(LParen)
    case ')' => Some(RParen)
    case '[' => Some(LBracket)
    case ']' => Some(RBracket)
    case ',' => Some(Comma)
    case '+' => Some(Plus)
    case '-' => Some(Minus)
    case '*' => Some(Star)
    case '/' => Some(Slash)
    case _ => None
  }

  /** Operators of one or two characters: `!`, `=`, `>` and `<` look one character ahead. */
  function LexOperator(src: string): (r: Lexed)
    requires src != [] && src[0] in "!=><"
    ensures !r.Skip? && (r.Tok? ==> |r.rest| < |src|)
  {
    var c := src[0];
    var next := if |src| > 1 then src[1] else ' ';
    if c == '!' then
      if next == '=' then Tok(Token(Neq, "!="), src[2..])
      else if next == '~' then Tok(Token(RegexNoMat, "!~"), src[2..])
      else Bad
    else if c == '=' then
      if next == '=' then Tok(Token(EqCmp, "=="), src[2..])
      else if next == '~' then Tok(Token(RegexMat, "=~"), src[2..])
      else Tok(Token(EqSign, "="), src[1..])
    else if c == '>' then
      if next == '=' then Tok(Token(Gte, ">="), src[2..]) else Tok(Token(Gt, ">"), src[1..])
    else
      if next == '=' then Tok(Token(Lte, "<="), src[2..]) else Tok(Token(Lt, "<"), src[1..])
  }

  predicate StartsNumber(src: string) {
    src != [] && (IsDigit(src[0]) || (src[0] == '.' && |src| > 1 && IsDigit(src[1])))
  }

  function WordToken(s: string): Token {
    Token(if s == "by" then By else if s == "without" then Without else Ident, s)
  }

  /** One turn of the tokenizer's loop. */
  function LexOne(src: string): (r: Lexed)
    requires src != []
    ensures r.Bad? || |r.rest| < |src|
  {
    var c := src[0];
    if IsSpace(c) then Skip(src[1..])
    else if Punct(c).Some? then Tok(Token(Punct(c).value, [c]), src[1..])
    else if c == '"' then
      match ScanString("", src[1..])
      case Unterminated => Bad
      case Scanned(val, rest) => Tok(Token(Str, val), rest)
    else if c in "!=><" then LexOperator(src)
    else if StartsNumber(src) then
      var n := Span(src, IsNumberChar);
      Tok(Token(Number, src[..n]), src[n..])
    else if IsIdentStart(c) then
      var n := Span(src, IsIdentCont);
      Tok(WordToken(src[..n]), src[n..])
    else Bad
  }

  /** All tokens of `src`, appended to `done`; None when a character is refused. */
  function LexAll(done: seq<Token>, src: string): Option<seq<Token>>
    decreases |src|
  {
    if src == [] then Some(done)
    else
      match LexOne(src)
      case Bad => None
      case Skip(rest) => LexAll(done, rest)
      case Tok(t, rest) => LexAll(done + [t], rest)
  }

  /** A number directly followed by a unit becomes one duration token. */
  predicate FoldsAt(ts: seq<Token>) {
    |ts| >= 2 && ts[0].kind == Number && ts[1].kind == Ident && IsDurationUnit(ts[1].val)
  }

  function Fold(ts: seq<Token>): seq<Token>
    decreases |ts|
  {
    if ts == [] then []
    else if FoldsAt(ts) then [Token(Duration, ts[0].val + ts[1].val)] + Fold(ts[2..])
    else [ts[0]] + Fold(ts[1..])
  }

  function TokenizeSpec(src: string): Option<seq<Token>> {
    match LexAll([], src)
    case None => None
    case Some(ts) => Some(Fold(ts))
  }

  // ---------- the loops ----------

  method ReadString(src: string) returns (r: Scanned)
    requires src != [] && src[0] == '"'
    ensures r == ScanString("", src[1..])
  {
    var b: string := "";
    var i := 1;
    while i < |src|
      invariant 1 <= i <= |src|
      invariant ScanString(b, src[i..]) == ScanString("", src[1..])
    {
      var c := src[i];
      if c == '"' {
        return Scanned(b, src[i + 1..]);
      } else if c == '\\' {
        if i + 1 >= |src| {
          return Unterminated;
        }
        assert src[i..][2..] == src[i + 2..];
        b := b + [Unescape(src[i + 1])];
        i := i + 2;
      } else {
        assert src[i..][1..] == src[i + 1..];
        b := b + [c];
        i := i + 1;
      }
    }
    return Unterminated;
  }

  method ReadWhile(src: string, p: char -> bool) returns (n: nat)
    ensures n == Span(src, p)
  {
    n := 0;
    while n < |src| && p(src[n])
      invariant n <= |src|
      invariant n + Span(src[n..], p) == Span(src, p)
      decreases |src| - n
    {
      assert src[n..][1..] == src[n + 1..];
      n := n + 1;
    }
  }

  method LexStep(src: string) returns (r: Lexed)
    requires src != []
    ensures r == LexOne(src)
  {
    var c := src[0];
    if IsSpace(c) {
      return Skip(src[1..]);
    } else if Punct(c).Some? {
      return Tok(Token(Punct(c).value, [c]), src[1..]);
    } else if c == '"' {
      var s := ReadString(src);
      return if s.Unterminated? then Bad else Tok(Token(Str, s.val), s.rest);
    } else if c in "!=><" {
      return LexOperator(src);
    } else if StartsNumber(src) {
      var n := ReadWhile(src, IsNumberChar);
      return Tok(Token(Number, src[..n]), src[n..]);
    } else if IsIdentStart(c) {
      var n := ReadWhile(src, IsIdentCont);
      return Tok(WordToken(src[..n]), src[n..]);
    }
    return Bad;
  }

  lemma FoldFrom(ts: seq<Token>, i: nat)
    requires i < |ts|
    ensures Fold(ts[i..]) ==
            if i + 1 < |ts| && ts[i].kind == Number && ts[i + 1].kind == Ident && IsDurationUnit(ts[i + 1].val)
            then [Token(Duration, ts[i].val + ts[i + 1].val)] + Fold(ts[i + 2..])
            else [ts[i]] + Fold(ts[i + 1..])
  {}

  method FoldDurations(ts: seq<Token>) returns (out: seq<Token>)
    ensures out == Fold(ts)
  {
    out := [];
    var i := 0;
    while i < |ts|
      invariant 0 <= i <= |ts|
      invariant out + Fold(ts[i..]) == Fold(ts)
    {
      hide IsDurationUnit, Fold;
      FoldFrom(ts, i);
      var t := ts[i];
      if t.kind == Number && i + 1 < |ts| && ts[i + 1].kind == Ident && IsDurationUnit(ts[i + 1].val) {
        out := out + [Token(Duration, t.val + ts[i + 1].val)];
        i := i + 2;
      } else {
        out := out + [t];
        i := i + 1;
      }
    }
    assert ts[i..] == [];
    assert out + [] == out;
  }

  method Tokenize(src: string) returns (r: Option<seq<Token>>)
    ensures r == TokenizeSpec(src)
  {
    var out: seq<Token> := [];
    var rest := src;
    while rest != []
      invariant LexAll(out, rest) == LexAll([], src)
      decreases |rest|
    {
      var step := LexStep(rest);
      match step
      case Bad => return None;
      case Skip(next) => rest := next;
      case Tok(t, next) => out, rest := out + [t], next;
    }
    out := FoldDurations(out);
    return Some(out);
  }

  // ---------- rendering ----------

  function Escape(s: string): string {
    if s == [] then [] else EscapeChar(s[0]) + Escape(s[1..])
  }

  function RenderToken(t: Token): string {
    if t.kind == Str then "\"" + Escape(t.val) + "\"" else t.val
  }

  /** Every token followed by a space. */
  function Render(ts: seq<Token>): string {
    if ts == [] then [] else RenderToken(ts[0]) + " " + Render(ts[1..])
  }

  predicate IsNumberText(s: string) {
    StartsNumber(s) && forall c <- s :: IsNumberChar(c)
  }

  predicate IsName(s: string) {
    s != [] && IsIdentStart(s[0]) && (forall c <- s :: IsIdentCont(c)) && s != "by" && s != "without"
  }

  function OperatorText(k: Kind): string {
    match k
    case Neq => "!="
    case RegexNoMat => "!~"
    case EqCmp => "=="
    case RegexMat => "=~"
    case EqSign => "="
    case Gte => ">="
    case Gt => ">"
    case Lte => "<="
    case Lt => "<"
    case LBrace => "{"
    case RBrace => "}"
    case LParen => "("
    case RParen => ")"
    case LBracket => "["
    case RBracket => "]"
    case Comma => ","
    case Plus => "+"
    case Minus => "-"
    case Star => "*"
    case Slash => "/"
    case By => "by"
    case Without => "without"
    case _ => ""
  }

  /** Where the digits of a duration end. */
  function UnitStart(s: string): nat {
    Span(s, IsNumberChar)
  }

  predicate IsDurationText(s: string) {
    var n := UnitStart(s);
    IsNumberText(s[..n]) && IsDurationUnit(s[n..])
  }

  /** The tokens the tokenizer can make, with the text it gives them. */
  predicate Lexable(t: Token) {
    match t.kind
    case Number => IsNumberText(t.val)
    case Ident => IsName(t.val)
    case Str => true
    case Duration => IsDurationText(t.val)
    case k => t.val == OperatorText(k)
  }

  /** No number stands right before a word that would be folded into it. */
  predicate FoldSafe(ts: seq<Token>) {
    ts != [] ==> !FoldsAt(ts) && FoldSafe(ts[1..])
  }

  /** The tokens before folding. */
  function Unfold(ts: seq<Token>): seq<Token> {
    if ts == [] then []
    else
      (if ts[0].kind == Duration then
         var n := UnitStart(ts[0].val);
         [Token(Number, ts[0].val[..n]), Token(Ident, ts[0].val[n..])]
       else [ts[0]])
      + Unfold(ts[1..])
  }

  // ---------- proofs ----------

  lemma SpanPrefix(s: string, rest: string, p: char -> bool)
    requires forall c <- s :: p(c)
    requires rest != [] && !p(rest[0])
    ensures Span(s + rest, p) == |s|
  {
    assert forall i | 0 <= i < |s| :: (s + rest)[i] == s[i] && s[i] in s;
    assert (s + rest)[|s|] == rest[0];
  }

  function EscapeChar(c: char): string {
    if c == '"' || c == '\\' then ['\\', c]
    else if c == '\n' then "\\n"
    else if c == '\t' then "\\t"
    else [c]
  }

  lemma ScanEscapedChar(done: string, c: char, tail: string)
    ensures ScanString(done, EscapeChar(c) + tail) == ScanString(done + [c], tail)
  {}

  lemma {:induction false} ScanEscaped(done: string, s: string, rest: string)
    ensures ScanString(done, Escape(s) + ("\"" + rest)) == Scanned(done + s, rest)
    decreases |s|
  {
    var close := "\"" + rest;
    if s == [] {
      assert Escape(s) + close == close;
      assert close[1..] == rest;
      assert done + s == done;
    } else {
      var tail := Escape(s[1..]) + close;
      assert Escape(s) + close == EscapeChar(s[0]) + tail;
      hide ScanString, EscapeChar, Escape;
      ScanEscapedChar(done, s[0], tail);
      ScanEscaped(done + [s[0]], s[1..], rest);
      assert done + s == done + [s[0]] + s[1..];
    }
  }

  lemma LexNumber(s: string, rest: string)
    requires IsNumberText(s) && rest != [] && !IsNumberChar(rest[0])
    ensures LexOne(s + rest) == Tok(Token(Number, s), rest)
  {
    SpanPrefix(s, rest, IsNumberChar);
    var src := s + rest;
    assert src[0] == s[0] && (|s| > 1 ==> src[1] == s[1]);
    assert src[..|s|] == s && src[|s|..] == rest;
  }

  lemma LexWord(s: string, rest: string)
    requires s != [] && IsIdentStart(s[0]) && (forall c <- s :: IsIdentCont(c))
    requires rest != [] && !IsIdentCont(rest[0])
    ensures LexOne(s + rest) == Tok(WordToken(s), rest)
  {
    SpanPrefix(s, rest, IsIdentCont);
    var src := s + rest;
    assert src[0] == s[0];
    assert src[..|s|] == s && src[|s|..] == rest;
  }

  lemma LexOneQuote(src: string)
    requires src != [] && src[0] == '"'
    ensures LexOne(src) == match ScanString("", src[1..])
                           case Unterminated => Bad
                           case Scanned(val, rest) => Tok(Token(Str, val), rest)
  {}

  lemma LexString(s: string, rest: string)
    ensures LexOne("\"" + Escape(s) + "\"" + rest) == Tok(Token(Str, s), rest)
  {
    hide LexOne, ScanString, Escape;
    var src := "\"" + Escape(s) + "\"" + rest;
    assert src[0] == '"' && src[1..] == Escape(s) + ("\"" + rest);
    LexOneQuote(src);
    ScanEscaped("", s, rest);
    assert "" + s == s;
  }

  lemma LexPunct(k: Kind, c: char, rest: string)
    requires Punct(c) == Some(k)
    ensures LexOne([c] + (" " + rest)) == Tok(Token(k, [c]), " " + rest)
  {}

  function OperatorKind(text: string): Kind {
    if text == "!=" then Neq else if text == "!~" then RegexNoMat else if text == "==" then EqCmp
    else if text == "=~" then RegexMat else if text == "=" then EqSign else if text == ">=" then Gte
    else if text == ">" then Gt else if text == "<=" then Lte else Lt
  }

  lemma LexSymbol(k: Kind, rest: string)
    requires |OperatorText(k)| > 0 && k != By && k != Without
    ensures LexOne(OperatorText(k) + (" " + rest)) == Tok(Token(k, OperatorText(k)), " " + rest)
  {
    var text := OperatorText(k);
    if |text| == 1 && Punct(text[0]).Some? {
      assert text == [text[0]];
      LexPunct(k, text[0], rest);
    } else {
      assert k == OperatorKind(text);
      hide LexOne, OperatorKind;
    }
  }

  /** A rendered token and the space after it are read back as that token. */
  lemma LexToken(t: Token, rest: string)
    requires Lexable(t) && t.kind != Duration
    ensures LexOne(RenderToken(t) + " " + rest) == Tok(t, " " + rest)
  {
    var after := " " + rest;
    assert RenderToken(t) + " " + rest == RenderToken(t) + after;
    match t.kind
    case Number => LexNumber(t.val, after);
    case Ident => LexWord(t.val, after);
    case Str => LexString(t.val, after);
    case By => LexWord("by", after);
    case Without => LexWord("without", after);
    case k => LexSymbol(k, rest);
  }

  lemma SkipSpace(done: seq<Token>, rest: string)
    ensures LexAll(done, " " + rest) == LexAll(done, rest)
  {}

  lemma LexThen(done: seq<Token>, src: string, t: Token, rest: string)
    requires src != [] && LexOne(src) == Tok(t, rest)
    ensures LexAll(done, src) == LexAll(done + [t], rest)
  {}

  lemma DurationParts(t: Token)
    requires Lexable(t) && t.kind == Duration
    ensures var n := UnitStart(t.val);
            && IsNumberText(t.val[..n]) && IsDurationUnit(t.val[n..])
            && IsName(t.val[n..]) && !IsNumberChar(t.val[n]) && t.val == t.val[..n] + t.val[n..]
  {}

  lemma LexNothing(done: seq<Token>)
    ensures LexAll(done, "") == Some(done)
  {}

  /** A rendered duration is read as its number and its unit. */
  lemma LexDuration(done: seq<Token>, t: Token, rest: string)
    requires Lexable(t) && t.kind == Duration
    ensures LexAll(done, RenderToken(t) + " " + rest) == LexAll(done + Unfold([t]), rest)
  {
    DurationParts(t);
    hide LexOne, Lexable, IsDurationUnit, LexAll, IsNumberText, IsName;
    var n := UnitStart(t.val);
    var num, unit := Token(Number, t.val[..n]), Token(Ident, t.val[n..]);
    var after := " " + rest;
    var second := unit.val + after;
    assert RenderToken(t) + " " + rest == num.val + second;
    LexNumber(num.val, second);
    LexThen(done, num.val + second, num, second);
    LexName(unit.val, after);
    LexThen(done + [num], second, unit, after);
    SkipSpace(done + [num] + [unit], rest);
    assert done + [num] + [unit] == done + Unfold([t]);
  }

  lemma LexName(s: string, rest: string)
    requires IsName(s) && rest != [] && !IsIdentCont(rest[0])
    ensures LexOne(s + rest) == Tok(Token(Ident, s), rest)
  {
    LexWord(s, rest);
  }

  lemma {:induction false} LexRendered(done: seq<Token>, ts: seq<Token>)
    requires forall t <- ts :: Lexable(t)
    ensures LexAll(done, Render(ts)) == Some(done + Unfold(ts))
    decreases |ts|
  {
    hide LexOne, Lexable, IsDurationUnit, LexAll;
    if ts == [] {
      assert done + [] == done;
      LexNothing(done);
    } else {
      var t, rest := ts[0], Render(ts[1..]);
      assert Lexable(t);
      var src := RenderToken(t) + " " + rest;
      if t.kind == Duration {
        LexDuration(done, t, rest);
        LexRendered(done + Unfold([t]), ts[1..]);
        assert done + Unfold([t]) + Unfold(ts[1..]) == done + Unfold(ts);
      } else {
        LexToken(t, rest);
        LexThen(done, src, t, " " + rest);
        SkipSpace(done + [t], rest);
        LexRendered(done + [t], ts[1..]);
        assert done + [t] + Unfold(ts[1..]) == done + Unfold(ts);
      }
    }
  }

  lemma {:induction false} FoldUnfold(ts: seq<Token>)
    requires forall t <- ts :: Lexable(t)
    ensures Fold(Unfold(ts)) == ts <==> FoldSafe(ts)
    decreases |ts|
  {
    hide Lexable, IsDurationUnit;
    if ts != [] {
      var t, more := ts[0], Unfold(ts[1..]);
      var flat := Unfold(ts);
      assert Lexable(t);
      FoldUnfold(ts[1..]);
      if t.kind == Duration {
        DurationParts(t);
        assert FoldsAt(flat) && flat[2..] == more;
      } else {
        assert flat[0] == t && flat[1..] == more;
        if |ts| > 1 {
          assert more[0] == ts[1] || (ts[1].kind == Duration && more[0].kind == Number);
        }
        assert FoldsAt(flat) <==> FoldsAt(ts);
      }
      assert ts == [t] + ts[1..];
    }
  }

  /** Tokenizing undoes rendering, exactly when no number stands before a duration unit. */
  lemma TokenizeRendered(ts: seq<Token>)
    requires forall t <- ts :: Lexable(t)
    ensures TokenizeSpec(Render(ts)) == Some(ts) <==> FoldSafe(ts)
  {
    LexRendered([], ts);
    assert [] + Unfold(ts) == Unfold(ts);
    FoldUnfold(ts);
  }
}
