/** The recursive-descent parser of pkg/promql/parser.go: first as functions of the tokens that
    are left, then as the object whose methods advance `pos`, proved equal to the functions. */
module PromqlParser {
  import opened Optional
  import opened PromqlAst

  // ---------- the grammar as functions ----------

  /** A parse result: a value and the tokens left over, or an error. */
  datatype Parsed<T> = Ok(value: T, rest: seq<Token>) | Err

  predicate At(ts: seq<Token>, kinds: set<Kind>) {
    ts != [] && ts[0].kind in kinds
  }

  const CmpKinds: set<Kind> := {Gt, Lt, Gte, Lte, EqCmp, Neq}
  const AddKinds: set<Kind> := {Plus, Minus}
  const MulKinds: set<Kind> := {Star, Slash}

  function Expect(ts: seq<Token>, k: Kind): (r: Parsed<string>)
    ensures r.Ok? ==> |r.rest| < |ts|
  {
    if At(ts, {k}) then Ok(ts[0].val, ts[1..]) else Err
  }

  function ParseExpr(ts: seq<Token>, pf: ParseFloat): (r: Parsed<Node>)
    ensures r.Ok? ==> |r.rest| < |ts|
    decreases |ts|, 8
  {
    match ParseAdd(ts, pf)
    case Err => Err
    case Ok(left, rest) => CmpTail(left, rest, pf)
  }

  /** At most one comparison: comparisons do not chain. */
  function CmpTail(left: Node, ts: seq<Token>, pf: ParseFloat): (r: Parsed<Node>)
    ensures r.Ok? ==> |r.rest| <= |ts|
    decreases |ts|, 7
  {
    if !At(ts, CmpKinds) then Ok(left, ts)
    else
      match ParseAdd(ts[1..], pf)
      case Err => Err
      case Ok(right, rest) => Ok(Bin(ts[0].val, left, right), rest)
  }

  function ParseAdd(ts: seq<Token>, pf: ParseFloat): (r: Parsed<Node>)
    ensures r.Ok? ==> |r.rest| < |ts|
    decreases |ts|, 6
  {
    match ParseMul(ts, pf)
    case Err => Err
    case Ok(left, rest) => AddLoop(left, rest, pf)
  }

  function AddLoop(left: Node, ts: seq<Token>, pf: ParseFloat): (r: Parsed<Node>)
    ensures r.Ok? ==> |r.rest| <= |ts|
    decreases |ts|, 5
  {
    if !At(ts, AddKinds) then Ok(left, ts)
    else
      match ParseMul(ts[1..], pf)
      case Err => Err
      case Ok(right, rest) => AddLoop(Bin(ts[0].val, left, right), rest, pf)
  }

  function ParseMul(ts: seq<Token>, pf: ParseFloat): (r: Parsed<Node>)
    ensures r.Ok? ==> |r.rest| < |ts|
    decreases |ts|, 4
  {
    match ParsePrimary(ts, pf)
    case Err => Err
    case Ok(left, rest) => MulLoop(left, rest, pf)
  }

  function MulLoop(left: Node, ts: seq<Token>, pf: ParseFloat): (r: Parsed<Node>)
    ensures r.Ok? ==> |r.rest| <= |ts|
    decreases |ts|, 3
  {
    if !At(ts, MulKinds) then Ok(left, ts)
    else
      match ParsePrimary(ts[1..], pf)
      case Err => Err
      case Ok(right, rest) => MulLoop(Bin(ts[0].val, left, right), rest, pf)
  }

  function ParsePrimary(ts: seq<Token>, pf: ParseFloat): (r: Parsed<Node>)
    ensures r.Ok? ==> |r.rest| < |ts|
    decreases |ts|, 2
  {
    if At(ts, {Number}) then
      var f := pf(ts[0].val);
      if f.None? then Err else Ok(Num(f.value), ts[1..])
    else if At(ts, {LParen}) then ParseGroup(ts[1..], pf)
    else if At(ts, {Ident}) then ParseIdentLike(ts[0].val, ts[1..], pf)
    else Err
  }

  function ParseGroup(ts: seq<Token>, pf: ParseFloat): (r: Parsed<Node>)
    ensures r.Ok? ==> |r.rest| < |ts|
    decreases |ts|, 9
  {
    match ParseExpr(ts, pf)
    case Err => Err
    case Ok(inner, rest) =>
      match Expect(rest, RParen)
      case Err => Err
      case Ok(_, rest') => Ok(inner, rest')
  }

  function ParseIdentLike(name: string, ts: seq<Token>, pf: ParseFloat): (r: Parsed<Node>)
    ensures r.Ok? ==> |r.rest| <= |ts|
    decreases |ts|, 12
  {
    if At(ts, {LParen}) then ParseCallOrAggr(name, ts[1..], pf) else ParseSelectorTail(name, ts, pf)
  }

  function ParseCallOrAggr(name: string, ts: seq<Token>, pf: ParseFloat): (r: Parsed<Node>)
    ensures r.Ok? ==> |r.rest| <= |ts|
    decreases |ts|, 11
  {
    match if At(ts, {RParen}) then Ok([], ts) else ParseArgs([], ts, pf)
    case Err => Err
    case Ok(args, rest) =>
      match Expect(rest, RParen)
      case Err => Err
      case Ok(_, rest') => if IsAggrName(name) then FinishAggr(name, args, rest') else Ok(Call(name, args), rest')
  }

  function ParseArgs(done: seq<Node>, ts: seq<Token>, pf: ParseFloat): (r: Parsed<seq<Node>>)
    ensures r.Ok? ==> |r.rest| < |ts|
    decreases |ts|, 10
  {
    match ParseExpr(ts, pf)
    case Err => Err
    case Ok(a, rest) =>
      if At(rest, {Comma}) then ParseArgs(done + [a], rest[1..], pf) else Ok(done + [a], rest)
  }

  /** The arity checks, then an optional `by (...)` or `without (...)`. */
  function FinishAggr(name: string, args: seq<Node>, ts: seq<Token>): (r: Parsed<Node>)
    ensures r.Ok? ==> |r.rest| <= |ts|
  {
    if name == "quantile" then
      if |args| == 2 && args[0].Num? then ParseModifier(name, args[1], Some(args[0].value), ts) else Err
    else if |args| == 1 then ParseModifier(name, args[0], None, ts)
    else Err
  }

  function ParseModifier(name: string, arg: Node, phi: Option<real>, ts: seq<Token>): (r: Parsed<Node>)
    ensures r.Ok? ==> |r.rest| <= |ts|
  {
    if !At(ts, {By, Without}) then Ok(Aggr(name, arg, [], [], phi), ts)
    else
      match Expect(ts[1..], LParen)
      case Err => Err
      case Ok(_, rest) =>
        match ParseLabels([], rest)
        case Err => Err
        case Ok(labs, rest') =>
          match Expect(rest', RParen)
          case Err => Err
          case Ok(_, rest'') =>
            Ok(if ts[0].kind == By then Aggr(name, arg, labs, [], phi) else Aggr(name, arg, [], labs, phi), rest'')
  }

  function ParseLabels(done: seq<string>, ts: seq<Token>): (r: Parsed<seq<string>>)
    ensures r.Ok? ==> |r.rest| < |ts|
    decreases |ts|
  {
    match Expect(ts, Ident)
    case Err => Err
    case Ok(id, rest) =>
      if At(rest, {Comma}) then ParseLabels(done + [id], rest[1..]) else Ok(done + [id], rest)
  }

  function ParseSelectorTail(metric: string, ts: seq<Token>, pf: ParseFloat): (r: Parsed<Node>)
    ensures r.Ok? ==> |r.rest| <= |ts|
  {
    match if At(ts, {LBrace}) then ParseMatchers([], ts[1..]) else Ok([], ts)
    case Err => Err
    case Ok(matches, rest) => ParseRangeTail(Selector(metric, matches), rest, pf)
  }

  function OpOf(k: Kind): Option<MatcherOp> {
    match k
    case EqSign => Some(MatchEq)
    case Neq => Some(MatchNeq)
    case RegexMat => Some(MatchRegex)
    case RegexNoMat => Some(MatchNotRegex)
    case _ => None
  }

  /** Matchers up to the closing brace; the comma between two of them is optional. */
  function ParseMatchers(done: seq<Matcher>, ts: seq<Token>): (r: Parsed<seq<Matcher>>)
    ensures r.Ok? ==> |r.rest| < |ts|
    decreases |ts|
  {
    if At(ts, {RBrace}) then Ok(done, ts[1..])
    else
      match Expect(ts, Ident)
      case Err => Err
      case Ok(name, rest) =>
        if rest == [] || OpOf(rest[0].kind).None? then Err
        else
          match Expect(rest[1..], Str)
          case Err => Err
          case Ok(val, rest') =>
            var done' := done + [Matcher(name, OpOf(rest[0].kind).value, val)];
            ParseMatchers(done', if At(rest', {Comma}) then rest'[1..] else rest')
  }

  function ParseRangeTail(v: Selector, ts: seq<Token>, pf: ParseFloat): (r: Parsed<Node>)
    ensures r.Ok? ==> |r.rest| <= |ts|
  {
    if !At(ts, {LBracket}) then Ok(Vector(v), ts)
    else
      match Expect(ts[1..], Duration)
      case Err => Err
      case Ok(text, rest) =>
        match Expect(rest, RBracket)
        case Err => Err
        case Ok(_, rest') =>
          var dur := ParseDuration(text, pf);
          if dur.None? then Err else Ok(Range(v, dur.value, text), rest')
  }

  // ---------- the parser object ----------

  datatype Result<T> = Success(value: T) | Failure

  class Parser {
    const tokens: seq<Token>
    const pf: ParseFloat
    var pos: nat

    constructor (tokens: seq<Token>, pf: ParseFloat)
      ensures this.tokens == tokens && this.pf == pf && pos == 0
    {
      this.tokens, this.pf, this.pos := tokens, pf, 0;
    }

    ghost predicate Valid()
      reads this
    {
      pos <= |tokens|
    }

    /** The tokens not yet consumed. */
    ghost function Left(): seq<Token>
      requires Valid()
      reads this
    {
      tokens[pos..]
    }

    /** A method's outcome is what the grammar function gives. */
    ghost predicate Matches<T>(r: Result<T>, spec: Parsed<T>)
      requires Valid()
      reads this
    {
      match spec
      case Ok(value, rest) => r == Success(value) && Left() == rest
      case Err => r.Failure?
    }

    method Peek() returns (t: Option<Token>)
      requires Valid()
      ensures t == if Left() == [] then None else Some(Left()[0])
    {
      t := if pos >= |tokens| then None else Some(tokens[pos]);
    }

    method Eat() returns (t: Option<Token>)
      requires Valid()
      modifies this
      ensures Valid()
      ensures if old(Left()) == [] then t == None && pos == old(pos)
              else t == Some(old(Left())[0]) && pos == old(pos) + 1 && Left() == old(Left())[1..]
    {
      t := Peek();
      if t.Some? {
        pos := pos + 1;
      }
    }

    method ExpectToken(k: Kind) returns (r: Result<string>)
      requires Valid()
      modifies this
      ensures Valid() && pos >= old(pos) && (r.Success? ==> pos > old(pos))
      ensures Matches(r, Expect(old(Left()), k))
    {
      var t := Eat();
      r := if t.None? || t.value.kind != k then Failure else Success(t.value.val);
    }

    method ParseBinCmp() returns (r: Result<Node>)
      requires Valid()
      modifies this
      ensures Valid() && pos >= old(pos)
      ensures Matches(r, ParseExpr(old(Left()), pf))
      decreases |Left()|, 8
    {
      r := ParseBinAdd();
      if r.Failure? {
        return;
      }
      ghost var mid := Left();
      assert ParseExpr(old(Left()), pf) == CmpTail(r.value, mid, pf);
      var t := Peek();
      if t.Some? && t.value.kind in CmpKinds {
        t := Eat();
        assert Left() == mid[1..];
        var right := ParseBinAdd();
        if right.Failure? {
          return Failure;
        }
        r := Success(Bin(t.value.val, r.value, right.value));
      }
    }

    method ParseBinAdd() returns (r: Result<Node>)
      requires Valid()
      modifies this
      ensures Valid() && pos >= old(pos) && (r.Success? ==> pos > old(pos))
      ensures Matches(r, ParseAdd(old(Left()), pf))
      decreases |Left()|, 6
    {
      r := ParseBinMul();
      if r.Failure? {
        return;
      }
      while true
        invariant Valid() && r.Success? && pos > old(pos)
        invariant AddLoop(r.value, Left(), pf) == ParseAdd(old(Left()), pf)
        decreases |tokens| - pos
      {
        var t := Peek();
        if t.None? || (t.value.kind != Plus && t.value.kind != Minus) {
          return;
        }
        t := Eat();
        var right := ParseBinMul();
        if right.Failure? {
          return Failure;
        }
        r := Success(Bin(t.value.val, r.value, right.value));
      }
    }

    method ParseBinMul() returns (r: Result<Node>)
      requires Valid()
      modifies this
      ensures Valid() && pos >= old(pos) && (r.Success? ==> pos > old(pos))
      ensures Matches(r, ParseMul(old(Left()), pf))
      decreases |Left()|, 4
    {
      r := ParsePrim();
      if r.Failure? {
        return;
      }
      while true
        invariant Valid() && r.Success? && pos > old(pos)
        invariant MulLoop(r.value, Left(), pf) == ParseMul(old(Left()), pf)
        decreases |tokens| - pos
      {
        var t := Peek();
        if t.None? || (t.value.kind != Star && t.value.kind != Slash) {
          return;
        }
        t := Eat();
        var right := ParsePrim();
        if right.Failure? {
          return Failure;
        }
        r := Success(Bin(t.value.val, r.value, right.value));
      }
    }

    method ParsePrim() returns (r: Result<Node>)
      requires Valid()
      modifies this
      ensures Valid() && pos >= old(pos) && (r.Success? ==> pos > old(pos))
      ensures Matches(r, ParsePrimary(old(Left()), pf))
      decreases |Left()|, 2
    {
      var t := Peek();
      if t.None? {
        return Failure;
      }
      match t.value.kind
      case Number =>
        t := Eat();
        var f := pf(t.value.val);
        return if f.None? then Failure else Success(Num(f.value));
      case LParen =>
        t := Eat();
        var inner := ParseBinCmp();
        if inner.Failure? {
          return Failure;
        }
        var close := ExpectToken(RParen);
        return if close.Failure? then Failure else inner;
      case Ident =>
        r := ParseIdent();
      case _ =>
        return Failure;
    }

    method ParseIdent() returns (r: Result<Node>)
      requires Valid() && At(Left(), {Ident})
      modifies this
      ensures Valid() && pos > old(pos)
      ensures Matches(r, ParseIdentLike(old(Left())[0].val, old(Left())[1..], pf))
      decreases |Left()|, 1
    {
      var name := Eat();
      var next := Peek();
      if next.Some? && next.value.kind == LParen {
        r := ParseCall(name.value.val);
      } else {
        r := ParseSelector(name.value.val);
      }
    }

    method ParseCall(name: string) returns (r: Result<Node>)
      requires Valid() && At(Left(), {LParen})
      modifies this
      ensures Valid() && pos >= old(pos)
      ensures Matches(r, ParseCallOrAggr(name, old(Left())[1..], pf))
      decreases |Left()|, 0
    {
      ghost var rest := Left()[1..];
      var paren := ExpectToken(LParen);
      var args: seq<Node> := [];
      var t := Peek();
      if t.None? || t.value.kind != RParen {
        while true
          invariant Valid() && pos > old(pos)
          invariant ParseArgs(args, Left(), pf) == ParseArgs([], rest, pf)
          decreases |tokens| - pos
        {
          var a := ParseBinCmp();
          if a.Failure? {
            return Failure;
          }
          args := args + [a.value];
          t := Peek();
          if t.Some? && t.value.kind == Comma {
            t := Eat();
            continue;
          }
          break;
        }
      }
      assert (if At(rest, {RParen}) then Ok([], rest) else ParseArgs([], rest, pf)) == Ok(args, Left());
      var close := ExpectToken(RParen);
      if close.Failure? {
        return Failure;
      }
      if IsAggrName(name) {
        r := FinishAggregate(name, args);
      } else {
        r := Success(Call(name, args));
      }
    }

    method FinishAggregate(name: string, args: seq<Node>) returns (r: Result<Node>)
      requires Valid()
      modifies this
      ensures Valid() && pos >= old(pos)
      ensures Matches(r, FinishAggr(name, args, old(Left())))
    {
      var phi: Option<real>, arg;
      if name == "quantile" {
        if |args| != 2 || !args[0].Num? {
          return Failure;
        }
        phi, arg := Some(args[0].value), args[1];
      } else {
        if |args| != 1 {
          return Failure;
        }
        phi, arg := None, args[0];
      }
      var t := Peek();
      if t.None? || (t.value.kind != By && t.value.kind != Without) {
        return Success(Aggr(name, arg, [], [], phi));
      }
      t := Eat();
      var paren := ExpectToken(LParen);
      if paren.Failure? {
        return Failure;
      }
      var labs := ParseLabelList();
      if labs.Failure? {
        return Failure;
      }
      var close := ExpectToken(RParen);
      if close.Failure? {
        return Failure;
      }
      return Success(if t.value.kind == By then Aggr(name, arg, labs.value, [], phi) else Aggr(name, arg, [], labs.value, phi));
    }

    method ParseLabelList() returns (r: Result<seq<string>>)
      requires Valid()
      modifies this
      ensures Valid() && pos >= old(pos)
      ensures Matches(r, ParseLabels([], old(Left())))
    {
      var labs: seq<string> := [];
      while true
        invariant Valid() && pos >= old(pos)
        invariant ParseLabels(labs, Left()) == ParseLabels([], old(Left()))
        decreases |tokens| - pos
      {
        var id := ExpectToken(Ident);
        if id.Failure? {
          return Failure;
        }
        labs := labs + [id.value];
        var t := Peek();
        if t.Some? && t.value.kind == Comma {
          t := Eat();
          continue;
        }
        break;
      }
      return Success(labs);
    }

    method ParseMatcherList() returns (r: Result<seq<Matcher>>)
      requires Valid()
      modifies this
      ensures Valid() && pos >= old(pos)
      ensures Matches(r, ParseMatchers([], old(Left())))
    {
      var matches: seq<Matcher> := [];
      while true
        invariant Valid() && pos >= old(pos)
        invariant ParseMatchers(matches, Left()) == ParseMatchers([], old(Left()))
        decreases |tokens| - pos
      {
        var t := Peek();
        if t.None? {
          return Failure;
        }
        if t.value.kind == RBrace {
          t := Eat();
          return Success(matches);
        }
        var name := ExpectToken(Ident);
        if name.Failure? {
          return Failure;
        }
        var opT := Eat();
        if opT.None? || OpOf(opT.value.kind).None? {
          return Failure;
        }
        var val := ExpectToken(Str);
        if val.Failure? {
          return Failure;
        }
        matches := matches + [Matcher(name.value, OpOf(opT.value.kind).value, val.value)];
        t := Peek();
        if t.Some? && t.value.kind == Comma {
          t := Eat();
        }
      }
    }

    method ParseSelector(metric: string) returns (r: Result<Node>)
      requires Valid()
      modifies this
      ensures Valid() && pos >= old(pos)
      ensures Matches(r, ParseSelectorTail(metric, old(Left()), pf))
    {
      var vs := Selector(metric, []);
      var t := Peek();
      if t.Some? && t.value.kind == LBrace {
        t := Eat();
        var matches := ParseMatcherList();
        if matches.Failure? {
          return Failure;
        }
        vs := Selector(metric, matches.value);
      }
      t := Peek();
      if t.Some? && t.value.kind == LBracket {
        t := Eat();
        var dt := ExpectToken(Duration);
        if dt.Failure? {
          return Failure;
        }
        var close := ExpectToken(RBracket);
        if close.Failure? {
          return Failure;
        }
        var dur := ParseDuration(dt.value, pf);
        return if dur.None? then Failure else Success(Range(vs, dur.value, dt.value));
      }
      return Success(Vector(vs));
    }
  }
}
