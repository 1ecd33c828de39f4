/** The ObserveQL planner (pkg/observeql/planner.go). SQL text is modelled as its lexemes:
    quoting and spaces between them are left out. */
module ObserveqlPlanner {
  import opened ObserveqlAst
  import opened SqlWhere

  datatype Param = StrParam(s: string) | NumParam(r: real) | TimeParam(t: int) | IntParam(n: int)

  datatype Rendered = Done(sql: seq<Lexeme>, params: seq<Param>) | Refused

  // ---------- rendering ----------

  /** strings.ReplaceAll(op, " ", ""). */
  function NormaliseOp(op: string): string {
    if op == "" then "" else (if op[0] == ' ' then "" else [op[0]]) + NormaliseOp(op[1..])
  }

  function RenderValue(v: Value, allowed: set<string>): Rendered {
    if v.ident.Some? then
      if v.ident.value in allowed then Done([Name(v.ident.value)], []) else Refused
    else if v.str.Some? then Done([Lexeme.Hole], [StrParam(v.str.value)])
    else if v.num.Some? then Done([Lexeme.Hole], [NumParam(v.num.value)])
    else Refused
  }

  function RenderPredicate(p: Pred, allowed: set<string>): Rendered {
    match RenderValue(p.lhs, allowed)
    case Refused => Refused
    case Done(l, lp) =>
      match RenderValue(p.rhs, allowed)
      case Refused => Refused
      case Done(r, rp) => Done(l + [Op(NormaliseOp(p.op))] + r, lp + rp)
  }

  function RenderCmp(c: Cmp, allowed: set<string>): Rendered
    decreases c, 0
  {
    if c.not.Some? then
      match RenderCmp(c.not.value, allowed)
      case Refused => Refused
      case Done(inner, ps) => Done([Not, Open] + inner + [Close], ps)
    else if c.group.Some? then
      match RenderOr(c.group.value.disjunction, allowed)
      case Refused => Refused
      case Done(inner, ps) => Done([Open] + inner + [Close], ps)
    else if c.pred.None? then Refused
    else RenderPredicate(c.pred.value, allowed)
  }

  function RenderAnd(a: AndExpr, allowed: set<string>): Rendered
    decreases a, 0
  {
    match RenderCmp(a.left, allowed)
    case Refused => Refused
    case Done(left, ps) => AndRest(left, ps, a.right, allowed)
  }

  function AndRest(left: seq<Lexeme>, ps: seq<Param>, rights: seq<Cmp>, allowed: set<string>): Rendered
    decreases rights, 0
  {
    if rights == [] then Done(left, ps)
    else
      match RenderCmp(rights[0], allowed)
      case Refused => Refused
      case Done(right, rp) => AndRest([Open] + left + [And] + right + [Close], ps + rp, rights[1..], allowed)
  }

  function RenderOr(o: OrExpr, allowed: set<string>): Rendered
    decreases o, 0
  {
    match RenderAnd(o.left, allowed)
    case Refused => Refused
    case Done(left, ps) => OrRest(left, ps, o.right, allowed)
  }

  function OrRest(left: seq<Lexeme>, ps: seq<Param>, rights: seq<AndExpr>, allowed: set<string>): Rendered
    decreases rights, 0
  {
    if rights == [] then Done(left, ps)
    else
      match RenderAnd(rights[0], allowed)
      case Refused => Refused
      case Done(right, rp) => OrRest([Open] + left + [Or] + right + [Close], ps + rp, rights[1..], allowed)
  }

  // ---------- the meaning of a condition ----------

  /** Every value is a literal or an allowed column, and no node is empty. */
  predicate ValueOk(v: Value, allowed: set<string>) {
    if v.ident.Some? then v.ident.value in allowed else v.str.Some? || v.num.Some?
  }

  predicate CmpOk(c: Cmp, allowed: set<string>)
    decreases c, 0
  {
    if c.not.Some? then CmpOk(c.not.value, allowed)
    else if c.group.Some? then OrOk(c.group.value.disjunction, allowed)
    else c.pred.Some? && ValueOk(c.pred.value.lhs, allowed) && ValueOk(c.pred.value.rhs, allowed)
  }

  predicate AndOk(a: AndExpr, allowed: set<string>)
    decreases a, 0
  {
    CmpOk(a.left, allowed) && forall c <- a.right :: CmpOk(c, allowed)
  }

  predicate OrOk(o: OrExpr, allowed: set<string>)
    decreases o, 0
  {
    AndOk(o.left, allowed) && forall a <- o.right :: AndOk(a, allowed)
  }

  ghost function ValueMeaning<V>(v: Value, allowed: set<string>, db: Db<Param, V>): V
    requires ValueOk(v, allowed)
  {
    if v.ident.Some? then db.col(v.ident.value)
    else if v.str.Some? then db.lit(StrParam(v.str.value))
    else db.lit(NumParam(v.num.value))
  }

  ghost function CmpMeaning<V>(c: Cmp, allowed: set<string>, db: Db<Param, V>): Truth
    requires CmpOk(c, allowed)
    decreases c, 0
  {
    if c.not.Some? then Not3(CmpMeaning(c.not.value, allowed, db))
    else if c.group.Some? then OrMeaning(c.group.value.disjunction, allowed, db)
    else
      db.compare(NormaliseOp(c.pred.value.op), ValueMeaning(c.pred.value.lhs, allowed, db), ValueMeaning(c.pred.value.rhs, allowed, db))
  }

  ghost function AndMeaning<V>(a: AndExpr, allowed: set<string>, db: Db<Param, V>): Truth
    requires AndOk(a, allowed)
    decreases a, 1
  {
    AndAll(CmpMeaning(a.left, allowed, db), a.right, allowed, db)
  }

  ghost function AndAll<V>(t: Truth, cs: seq<Cmp>, allowed: set<string>, db: Db<Param, V>): Truth
    requires forall c <- cs :: CmpOk(c, allowed)
    decreases cs, 0
  {
    if cs == [] then t else AndAll(And3(t, CmpMeaning(cs[0], allowed, db)), cs[1..], allowed, db)
  }

  ghost function OrMeaning<V>(o: OrExpr, allowed: set<string>, db: Db<Param, V>): Truth
    requires OrOk(o, allowed)
    decreases o, 1
  {
    OrAll(AndMeaning(o.left, allowed, db), o.right, allowed, db)
  }

  ghost function OrAll<V>(t: Truth, ands: seq<AndExpr>, allowed: set<string>, db: Db<Param, V>): Truth
    requires forall a <- ands :: AndOk(a, allowed)
    decreases ands, 0
  {
    if ands == [] then t else OrAll(Or3(t, AndMeaning(ands[0], allowed, db)), ands[1..], allowed, db)
  }

  // ---------- reading the rendered text back ----------

  /** Read at placeholder `k` with any text behind it, `ts` is a condition that takes exactly the
      parameters `ps` from position `k` on, and has truth value `t`. */
  ghost predicate ReadsAt<V>(ts: seq<Lexeme>, ps: seq<Param>, t: Truth, db: Db<Param, V>, rest: seq<Lexeme>,
          k: nat, all: seq<Param>) {
    k + |ps| <= |all| && all[k..k + |ps|] == ps ==>
      var r := ParseNot(ts + rest, k);
      && r.Ok? && r.rest == rest && r.next == k + |ps|
      && Bound(r.value, k + |ps|) && Bound(r.value, |all|)
      && Eval(r.value, all, db) == t
  }

  ghost predicate Denotes<V>(ts: seq<Lexeme>, ps: seq<Param>, t: Truth, db: Db<Param, V>) {
    forall rest, k: nat, all :: ReadsAt(ts, ps, t, db, rest, k, all)
  }

  lemma {:induction false} BoundGrows(c: Cond, m: nat, n: nat)
    requires Bound(c, m) && m <= n
    ensures Bound(c, n)
  {
    match c
    case Compare(_, _, _) =>
    case Neg(a) => BoundGrows(a, m, n);
    case Conj(a, b) => BoundGrows(a, m, n); BoundGrows(b, m, n);
    case Disj(a, b) => BoundGrows(a, m, n); BoundGrows(b, m, n);
  }

  /** A parenthesized condition whose inside is read up to the closing parenthesis. */
  lemma GroupStep(ts: seq<Lexeme>, k: nat, c: Cond, rest: seq<Lexeme>, next: nat)
    requires ParseOr(ts, k) == Ok(c, [Close] + rest, next)
    ensures ParseNot([Open] + ts, k) == Ok(c, rest, next)
  {}

  lemma AndFirst(ts: seq<Lexeme>, k: nat, c: Cond, rest: seq<Lexeme>, next: nat)
    requires ParseNot(ts, k) == Ok(c, rest, next)
    ensures ParseAnd(ts, k) == AndLoop(c, rest, next)
  {}

  lemma AndStop(c: Cond, rest: seq<Lexeme>, k: nat)
    requires !At(rest, And)
    ensures AndLoop(c, rest, k) == Ok(c, rest, k)
  {}

  lemma AndStep(left: Cond, ts: seq<Lexeme>, k: nat, c: Cond, rest: seq<Lexeme>, next: nat)
    requires ParseNot(ts, k) == Ok(c, rest, next)
    ensures AndLoop(left, [And] + ts, k) == AndLoop(Conj(left, c), rest, next)
  {}

  lemma OrFirst(ts: seq<Lexeme>, k: nat, c: Cond, rest: seq<Lexeme>, next: nat)
    requires ParseAnd(ts, k) == Ok(c, rest, next)
    ensures ParseOr(ts, k) == OrLoop(c, rest, next)
  {}

  lemma OrStop(c: Cond, rest: seq<Lexeme>, k: nat)
    requires !At(rest, Or)
    ensures OrLoop(c, rest, k) == Ok(c, rest, k)
  {}

  lemma OrStep(left: Cond, ts: seq<Lexeme>, k: nat, c: Cond, rest: seq<Lexeme>, next: nat)
    requires ParseAnd(ts, k) == Ok(c, rest, next)
    ensures OrLoop(left, [Or] + ts, k) == OrLoop(Disj(left, c), rest, next)
  {}

  /** A condition followed by a closing parenthesis, read at the lowest level. */
  lemma WholeInside(ts: seq<Lexeme>, k: nat, c: Cond, rest: seq<Lexeme>, next: nat)
    requires ParseNot(ts, k) == Ok(c, [Close] + rest, next)
    ensures ParseOr(ts, k) == Ok(c, [Close] + rest, next)
  {
    hide *;
    AtClose(rest);
    AndFirst(ts, k, c, [Close] + rest, next);
    AndStop(c, [Close] + rest, next);
    OrFirst(ts, k, c, [Close] + rest, next);
    OrStop(c, [Close] + rest, next);
  }

  lemma AtClose(rest: seq<Lexeme>)
    ensures !At([Close] + rest, And) && !At([Close] + rest, Or)
    ensures !At([Or] + rest, And) && !At([And] + rest, Or)
  {}

  lemma ReadGroup(ts: seq<Lexeme>, rest: seq<Lexeme>, k: nat, c: Cond, next: nat)
    requires ParseNot(ts + ([Close] + rest), k) == Ok(c, [Close] + rest, next)
    ensures ParseNot([Open] + ts + [Close] + rest, k) == Ok(c, rest, next)
  {
    hide *;
    WholeInside(ts + ([Close] + rest), k, c, rest, next);
    GroupStep(ts + ([Close] + rest), k, c, rest, next);
    assert [Open] + ts + [Close] + rest == [Open] + (ts + ([Close] + rest));
  }

  lemma DenotesGroup<V>(ts: seq<Lexeme>, ps: seq<Param>, t: Truth, db: Db<Param, V>)
    requires Denotes(ts, ps, t, db)
    ensures Denotes([Open] + ts + [Close], ps, t, db)
  {
    forall rest, k: nat, all ensures ReadsAt([Open] + ts + [Close], ps, t, db, rest, k, all) {
      hide ParseNot, Eval, Bound;
      if k + |ps| <= |all| && all[k..k + |ps|] == ps {
        assert ReadsAt(ts, ps, t, db, [Close] + rest, k, all);
        var r := ParseNot(ts + ([Close] + rest), k);
        ReadGroup(ts, rest, k, r.value, r.next);
      }
    }
  }

  lemma DenotesNot<V>(ts: seq<Lexeme>, ps: seq<Param>, t: Truth, db: Db<Param, V>)
    requires Denotes(ts, ps, t, db)
    ensures Denotes([Not] + ts, ps, Not3(t), db)
  {
    forall rest, k: nat, all ensures ReadsAt([Not] + ts, ps, Not3(t), db, rest, k, all) {
      hide ParseNot;
      if k + |ps| <= |all| && all[k..k + |ps|] == ps {
        assert ReadsAt(ts, ps, t, db, rest, k, all);
        var r := ParseNot(ts + rest, k);
        assert [Not] + ts + rest == [Not] + (ts + rest);
      }
    }
  }

  /** Two conditions side by side: what each reads when the other stands behind or before it. */
  lemma ReadPair<V>(l: seq<Lexeme>, lp: seq<Param>, lt: Truth, r: seq<Lexeme>, rp: seq<Param>, rt: Truth, db: Db<Param, V>,
                    op: Lexeme, after: seq<Lexeme>, k: nat, all: seq<Param>)
    requires Denotes(l, lp, lt, db) && Denotes(r, rp, rt, db)
    requires k + |lp + rp| <= |all| && all[k..k + |lp + rp|] == lp + rp
    ensures var a := ParseNot(l + ([op] + (r + after)), k);
            var b := ParseNot(r + after, k + |lp|);
            && a.Ok? && a.rest == [op] + (r + after) && a.next == k + |lp|
            && b.Ok? && b.rest == after && b.next == k + |lp + rp|
            && Bound(a.value, k + |lp + rp|) && Bound(b.value, k + |lp + rp|)
            && Bound(a.value, |all|) && Bound(b.value, |all|)
            && Eval(a.value, all, db) == lt && Eval(b.value, all, db) == rt
  {
    hide ParseNot, Eval;
    assert all[k..k + |lp|] == (lp + rp)[..|lp|] == lp;
    assert all[k + |lp|..k + |lp| + |rp|] == (lp + rp)[|lp|..] == rp;
    assert ReadsAt(l, lp, lt, db, [op] + (r + after), k, all);
    assert ReadsAt(r, rp, rt, db, after, k + |lp|, all);
    BoundGrows(ParseNot(l + ([op] + (r + after)), k).value, k + |lp|, k + |lp + rp|);
  }

  lemma ReadAnd(l: seq<Lexeme>, r: seq<Lexeme>, rest: seq<Lexeme>, k: nat, a: Cond, mid: nat, b: Cond, next: nat)
    requires ParseNot(l + ([And] + (r + ([Close] + rest))), k) == Ok(a, [And] + (r + ([Close] + rest)), mid)
    requires ParseNot(r + ([Close] + rest), mid) == Ok(b, [Close] + rest, next)
    ensures ParseNot([Open] + l + [And] + r + [Close] + rest, k) == Ok(Conj(a, b), rest, next)
  {
    hide *;
    var after := [Close] + rest;
    var inner := l + ([And] + (r + after));
    AtClose(rest);
    AndFirst(inner, k, a, [And] + (r + after), mid);
    AndStep(a, r + after, mid, b, after, next);
    AndStop(Conj(a, b), after, next);
    OrFirst(inner, k, Conj(a, b), after, next);
    OrStop(Conj(a, b), after, next);
    GroupStep(inner, k, Conj(a, b), rest, next);
    assert [Open] + l + [And] + r + [Close] + rest == [Open] + inner;
  }

  lemma ReadOr(l: seq<Lexeme>, r: seq<Lexeme>, rest: seq<Lexeme>, k: nat, a: Cond, mid: nat, b: Cond, next: nat)
    requires ParseNot(l + ([Or] + (r + ([Close] + rest))), k) == Ok(a, [Or] + (r + ([Close] + rest)), mid)
    requires ParseNot(r + ([Close] + rest), mid) == Ok(b, [Close] + rest, next)
    ensures ParseNot([Open] + l + [Or] + r + [Close] + rest, k) == Ok(Disj(a, b), rest, next)
  {
    hide *;
    var after := [Close] + rest;
    var inner := l + ([Or] + (r + after));
    AtClose(rest);
    AtClose(r + after);
    AndFirst(inner, k, a, [Or] + (r + after), mid);
    AndStop(a, [Or] + (r + after), mid);
    AndFirst(r + after, mid, b, after, next);
    AndStop(b, after, next);
    OrFirst(inner, k, a, [Or] + (r + after), mid);
    OrStep(a, r + after, mid, b, after, next);
    OrStop(Disj(a, b), after, next);
    GroupStep(inner, k, Disj(a, b), rest, next);
    assert [Open] + l + [Or] + r + [Close] + rest == [Open] + inner;
  }

  lemma DenotesAnd<V>(l: seq<Lexeme>, lp: seq<Param>, lt: Truth, r: seq<Lexeme>, rp: seq<Param>, rt: Truth, db: Db<Param, V>)
    requires Denotes(l, lp, lt, db) && Denotes(r, rp, rt, db)
    ensures Denotes([Open] + l + [And] + r + [Close], lp + rp, And3(lt, rt), db)
  {
    var ts := [Open] + l + [And] + r + [Close];
    forall rest, k: nat, all ensures ReadsAt(ts, lp + rp, And3(lt, rt), db, rest, k, all) {
      hide ParseNot, Denotes, And3;
      if k + |lp + rp| <= |all| && all[k..k + |lp + rp|] == lp + rp {
        var after := [Close] + rest;
        ReadPair(l, lp, lt, r, rp, rt, db, And, after, k, all);
        var a, b := ParseNot(l + ([And] + (r + after)), k), ParseNot(r + after, k + |lp|);
        ReadAnd(l, r, rest, k, a.value, k + |lp|, b.value, b.next);
      }
    }
  }

  lemma DenotesOr<V>(l: seq<Lexeme>, lp: seq<Param>, lt: Truth, r: seq<Lexeme>, rp: seq<Param>, rt: Truth, db: Db<Param, V>)
    requires Denotes(l, lp, lt, db) && Denotes(r, rp, rt, db)
    ensures Denotes([Open] + l + [Or] + r + [Close], lp + rp, Or3(lt, rt), db)
  {
    var ts := [Open] + l + [Or] + r + [Close];
    forall rest, k: nat, all ensures ReadsAt(ts, lp + rp, Or3(lt, rt), db, rest, k, all) {
      hide ParseNot, Denotes, Or3;
      if k + |lp + rp| <= |all| && all[k..k + |lp + rp|] == lp + rp {
        var after := [Close] + rest;
        ReadPair(l, lp, lt, r, rp, rt, db, Or, after, k, all);
        var a, b := ParseNot(l + ([Or] + (r + after)), k), ParseNot(r + after, k + |lp|);
        ReadOr(l, r, rest, k, a.value, k + |lp|, b.value, b.next);
      }
    }
  }

  /** A column or a placeholder, and the parameter it takes. */
  ghost predicate TermOf<V>(t: Lexeme, ps: seq<Param>, v: V, db: Db<Param, V>) {
    match t
    case Name(n) => ps == [] && v == db.col(n)
    case Hole => |ps| == 1 && v == db.lit(ps[0])
    case _ => false
  }

  lemma DenotesCompare<V>(l: Lexeme, lp: seq<Param>, lv: V, op: string, r: Lexeme, rp: seq<Param>, rv: V, db: Db<Param, V>)
    requires TermOf(l, lp, lv, db) && TermOf(r, rp, rv, db)
    ensures Denotes([l] + [Op(op)] + [r], lp + rp, db.compare(op, lv, rv), db)
  {}

  // ---------- rendering denotes the condition ----------

  lemma ValueDenotes<V>(v: Value, allowed: set<string>, db: Db<Param, V>)
    ensures RenderValue(v, allowed).Done? <==> ValueOk(v, allowed)
    ensures ValueOk(v, allowed) ==>
              var r := RenderValue(v, allowed);
              |r.sql| == 1 && TermOf(r.sql[0], r.params, ValueMeaning(v, allowed, db), db)
  {}

  lemma {:induction false} CmpDenotes<V>(c: Cmp, allowed: set<string>, db: Db<Param, V>)
    ensures RenderCmp(c, allowed).Done? <==> CmpOk(c, allowed)
    ensures CmpOk(c, allowed) ==>
              var r := RenderCmp(c, allowed); Denotes(r.sql, r.params, CmpMeaning(c, allowed, db), db)
    decreases c, 0
  {
    hide Denotes, ValueOk, RenderValue, TermOf;
    if c.not.Some? {
      CmpDenotes(c.not.value, allowed, db);
      if CmpOk(c, allowed) {
        var r := RenderCmp(c.not.value, allowed);
        var t := CmpMeaning(c.not.value, allowed, db);
        DenotesGroup(r.sql, r.params, t, db);
        DenotesNot([Open] + r.sql + [Close], r.params, t, db);
        assert [Not] + ([Open] + r.sql + [Close]) == [Not, Open] + r.sql + [Close];
      }
    } else if c.group.Some? {
      OrDenotes(c.group.value.disjunction, allowed, db);
      if CmpOk(c, allowed) {
        var r := RenderOr(c.group.value.disjunction, allowed);
        DenotesGroup(r.sql, r.params, OrMeaning(c.group.value.disjunction, allowed, db), db);
      }
    } else if c.pred.Some? {
      PredDenotes(c.pred.value, allowed, db);
    }
  }

  lemma PredDenotes<V>(p: Pred, allowed: set<string>, db: Db<Param, V>)
    ensures RenderPredicate(p, allowed).Done? <==> ValueOk(p.lhs, allowed) && ValueOk(p.rhs, allowed)
    ensures ValueOk(p.lhs, allowed) && ValueOk(p.rhs, allowed) ==>
              var r := RenderPredicate(p, allowed);
              Denotes(r.sql, r.params,
                      db.compare(NormaliseOp(p.op), ValueMeaning(p.lhs, allowed, db), ValueMeaning(p.rhs, allowed, db)), db)
  {
    hide Denotes, ValueOk, RenderValue, TermOf, ValueMeaning;
    ValueDenotes(p.lhs, allowed, db);
    ValueDenotes(p.rhs, allowed, db);
    if ValueOk(p.lhs, allowed) && ValueOk(p.rhs, allowed) {
      var l, r := RenderValue(p.lhs, allowed), RenderValue(p.rhs, allowed);
      DenotesCompare(l.sql[0], l.params, ValueMeaning(p.lhs, allowed, db), NormaliseOp(p.op),
                     r.sql[0], r.params, ValueMeaning(p.rhs, allowed, db), db);
      assert l.sql == [l.sql[0]] && r.sql == [r.sql[0]];
    }
  }

  lemma {:induction false} AndDenotes<V>(a: AndExpr, allowed: set<string>, db: Db<Param, V>)
    ensures RenderAnd(a, allowed).Done? <==> AndOk(a, allowed)
    ensures AndOk(a, allowed) ==>
              var r := RenderAnd(a, allowed); Denotes(r.sql, r.params, AndMeaning(a, allowed, db), db)
    decreases a, 0
  {
    hide Denotes;
    CmpDenotes(a.left, allowed, db);
    if CmpOk(a.left, allowed) {
      var l := RenderCmp(a.left, allowed);
      AndRestDenotes(l.sql, l.params, CmpMeaning(a.left, allowed, db), a.right, allowed, db);
    }
  }

  lemma {:induction false} AndRestDenotes<V>(left: seq<Lexeme>, ps: seq<Param>, t: Truth, rights: seq<Cmp>,
          allowed: set<string>, db: Db<Param, V>)
    requires Denotes(left, ps, t, db)
    ensures AndRest(left, ps, rights, allowed).Done? <==> forall c <- rights :: CmpOk(c, allowed)
    ensures (forall c <- rights :: CmpOk(c, allowed)) ==>
              var r := AndRest(left, ps, rights, allowed); Denotes(r.sql, r.params, AndAll(t, rights, allowed, db), db)
    decreases rights, 0
  {
    hide Denotes;
    if rights != [] {
      CmpDenotes(rights[0], allowed, db);
      if CmpOk(rights[0], allowed) {
        var r, rt := RenderCmp(rights[0], allowed), CmpMeaning(rights[0], allowed, db);
        DenotesAnd(left, ps, t, r.sql, r.params, rt, db);
        AndRestDenotes([Open] + left + [And] + r.sql + [Close], ps + r.params, And3(t, rt), rights[1..], allowed, db);
        assert forall c <- rights :: c == rights[0] || c in rights[1..];
      }
    }
  }

  lemma {:induction false} OrDenotes<V>(o: OrExpr, allowed: set<string>, db: Db<Param, V>)
    ensures RenderOr(o, allowed).Done? <==> OrOk(o, allowed)
    ensures OrOk(o, allowed) ==>
              var r := RenderOr(o, allowed); Denotes(r.sql, r.params, OrMeaning(o, allowed, db), db)
    decreases o, 0
  {
    hide Denotes;
    AndDenotes(o.left, allowed, db);
    if AndOk(o.left, allowed) {
      var l := RenderAnd(o.left, allowed);
      OrRestDenotes(l.sql, l.params, AndMeaning(o.left, allowed, db), o.right, allowed, db);
    }
  }

  lemma {:induction false} OrRestDenotes<V>(left: seq<Lexeme>, ps: seq<Param>, t: Truth, rights: seq<AndExpr>,
          allowed: set<string>, db: Db<Param, V>)
    requires Denotes(left, ps, t, db)
    ensures OrRest(left, ps, rights, allowed).Done? <==> forall a <- rights :: AndOk(a, allowed)
    ensures (forall a <- rights :: AndOk(a, allowed)) ==>
              var r := OrRest(left, ps, rights, allowed); Denotes(r.sql, r.params, OrAll(t, rights, allowed, db), db)
    decreases rights, 0
  {
    hide Denotes;
    if rights != [] {
      AndDenotes(rights[0], allowed, db);
      if AndOk(rights[0], allowed) {
        var r, rt := RenderAnd(rights[0], allowed), AndMeaning(rights[0], allowed, db);
        DenotesOr(left, ps, t, r.sql, r.params, rt, db);
        OrRestDenotes([Open] + left + [Or] + r.sql + [Close], ps + r.params, Or3(t, rt), rights[1..], allowed, db);
        assert forall a <- rights :: a == rights[0] || a in rights[1..];
      }
    }
  }
}
