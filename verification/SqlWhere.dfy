/** A reference reading of SQL conditions: lexemes, a parser with SQL's precedence
    (NOT over AND over OR), numbering of `?` from left to right, and three-valued evaluation. */
module SqlWhere {
  datatype Lexeme =
    | Word(text: string)    // a keyword or a function name
    | Name(text: string)    // a column or table
    | Op(text: string)      // a comparison operator
    | Hole                  // ?
    | And | Or | Not | Open | Close | Comma

  datatype Term = Col(name: string) | Hole(index: nat)

  datatype Cond =
    | Compare(lhs: Term, op: string, rhs: Term)
    | Neg(c: Cond)
    | Conj(a: Cond, b: Cond)
    | Disj(a: Cond, b: Cond)

  // ---------- parsing ----------

  /** A condition, the lexemes left over, and the number of the next placeholder. */
  datatype Parsed<T> = Ok(value: T, rest: seq<Lexeme>, next: nat) | Err

  predicate At(ts: seq<Lexeme>, t: Lexeme) {
    ts != [] && ts[0] == t
  }

  function ParseTerm(ts: seq<Lexeme>, k: nat): (r: Parsed<Term>)
    ensures r.Ok? ==> |r.rest| < |ts|
  {
    if ts == [] then Err
    else if ts[0].Name? then Ok(Col(ts[0].text), ts[1..], k)
    else if ts[0] == Lexeme.Hole then Ok(Term.Hole(k), ts[1..], k + 1)
    else Err
  }

  function ParseCompare(ts: seq<Lexeme>, k: nat): (r: Parsed<Cond>)
    ensures r.Ok? ==> |r.rest| < |ts|
  {
    match ParseTerm(ts, k)
    case Err => Err
    case Ok(lhs, rest, k1) =>
      if rest == [] || !rest[0].Op? then Err
      else
        match ParseTerm(rest[1..], k1)
        case Err => Err
        case Ok(rhs, rest', k2) => Ok(Compare(lhs, rest[0].text, rhs), rest', k2)
  }

  function ParseNot(ts: seq<Lexeme>, k: nat): (r: Parsed<Cond>)
    ensures r.Ok? ==> |r.rest| < |ts|
    decreases |ts|, 0
  {
    if At(ts, Not) then
      match ParseNot(ts[1..], k)
      case Err => Err
      case Ok(c, rest, k') => Ok(Neg(c), rest, k')
    else if At(ts, Open) then
      match ParseOr(ts[1..], k)
      case Err => Err
      case Ok(c, rest, k') => if At(rest, Close) then Ok(c, rest[1..], k') else Err
    else ParseCompare(ts, k)
  }

  function ParseAnd(ts: seq<Lexeme>, k: nat): (r: Parsed<Cond>)
    ensures r.Ok? ==> |r.rest| < |ts|
    decreases |ts|, 2
  {
    match ParseNot(ts, k)
    case Err => Err
    case Ok(c, rest, k') => AndLoop(c, rest, k')
  }

  function AndLoop(left: Cond, ts: seq<Lexeme>, k: nat): (r: Parsed<Cond>)
    ensures r.Ok? ==> |r.rest| <= |ts|
    decreases |ts|, 1
  {
    if !At(ts, And) then Ok(left, ts, k)
    else
      match ParseNot(ts[1..], k)
      case Err => Err
      case Ok(c, rest, k') => AndLoop(Conj(left, c), rest, k')
  }

  function ParseOr(ts: seq<Lexeme>, k: nat): (r: Parsed<Cond>)
    ensures r.Ok? ==> |r.rest| < |ts|
    decreases |ts|, 4
  {
    match ParseAnd(ts, k)
    case Err => Err
    case Ok(c, rest, k') => OrLoop(c, rest, k')
  }

  function OrLoop(left: Cond, ts: seq<Lexeme>, k: nat): (r: Parsed<Cond>)
    ensures r.Ok? ==> |r.rest| <= |ts|
    decreases |ts|, 3
  {
    if !At(ts, Or) then Ok(left, ts, k)
    else
      match ParseAnd(ts[1..], k)
      case Err => Err
      case Ok(c, rest, k') => OrLoop(Disj(left, c), rest, k')
  }

  // ---------- evaluation ----------

  datatype Truth = True | False | Unknown

  function Not3(a: Truth): Truth {
    match a
    case True => False
    case False => True
    case Unknown => Unknown
  }

  function And3(a: Truth, b: Truth): Truth {
    if a == False || b == False then False
    else if a == True && b == True then True
    else Unknown
  }

  function Or3(a: Truth, b: Truth): Truth {
    Not3(And3(Not3(a), Not3(b)))
  }

  /** A row of a database, and how it compares values; `P` is the type of bound parameters. */
  datatype Db<!P, !V> = Db(col: string -> V, lit: P -> V, compare: (string, V, V) -> Truth)

  ghost predicate Bound(c: Cond, n: nat) {
    match c
    case Compare(l, _, r) => (l.Hole? ==> l.index < n) && (r.Hole? ==> r.index < n)
    case Neg(a) => Bound(a, n)
    case Conj(a, b) => Bound(a, n) && Bound(b, n)
    case Disj(a, b) => Bound(a, n) && Bound(b, n)
  }

  ghost function TermValue<P, V>(t: Term, params: seq<P>, db: Db<P, V>): V
    requires t.Hole? ==> t.index < |params|
  {
    match t
    case Col(name) => db.col(name)
    case Hole(i) => db.lit(params[i])
  }

  ghost function Eval<P, V>(c: Cond, params: seq<P>, db: Db<P, V>): Truth
    requires Bound(c, |params|)
  {
    match c
    case Compare(l, op, r) => db.compare(op, TermValue(l, params, db), TermValue(r, params, db))
    case Neg(a) => Not3(Eval(a, params, db))
    case Conj(a, b) => And3(Eval(a, params, db), Eval(b, params, db))
    case Disj(a, b) => Or3(Eval(a, params, db), Eval(b, params, db))
  }

  function CountHoles(ts: seq<Lexeme>): nat {
    if ts == [] then 0 else (if ts[0] == Lexeme.Hole then 1 else 0) + CountHoles(ts[1..])
  }

  lemma {:induction false} CountHolesConcat(a: seq<Lexeme>, b: seq<Lexeme>)
    ensures CountHoles(a + b) == CountHoles(a) + CountHoles(b)
  {
    if a == [] {
      assert a + b == b;
    } else {
      CountHolesConcat(a[1..], b);
      assert (a + b)[1..] == a[1..] + b;
    }
  }
}
