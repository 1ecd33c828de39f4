/** The LogQL scanner and its SQL (pkg/logql/logql.go): stream selectors, line filters, and the
    positional parameters of a log query. Regular-expression compilation and lower-casing are
    parameters; error texts are left out. */
module Logql {
  import opened Optional

  // ---------- characters and trimming ----------

  predicate IsSpace(c: char) {
    c == ' ' || '\t' <= c <= '\r' || c == '\U{85}' || c == '\U{a0}' || c == '\U{1680}' || '\U{2000}' <= c <= '\U{200a}'
    || c == '\U{2028}' || c == '\U{2029}' || c == '\U{202f}' || c == '\U{205f}' || c == '\U{3000}'
  }

  function TrimLeft(s: string): (t: string)
    ensures |t| <= |s|
  {
    if s != "" && IsSpace(s[0]) then TrimLeft(s[1..]) else s
  }

  function TrimRight(s: string): (t: string)
    ensures |t| <= |s|
  {
    if s != "" && IsSpace(s[|s| - 1]) then TrimRight(s[..|s| - 1]) else s
  }

  function TrimSpace(s: string): (t: string)
    ensures |t| <= |s|
  {
    TrimRight(TrimLeft(s))
  }

  /** Text that trimming leaves alone. */
  predicate Tight(s: string) {
    s == "" || (!IsSpace(s[0]) && !IsSpace(s[|s| - 1]))
  }

  lemma TrimTight(s: string)
    requires Tight(s)
    ensures TrimSpace(s) == s
  {}

  /** Go's strings.Index for one character; the length when there is none. */
  function IndexOf(s: string, c: char): (i: nat)
    ensures i <= |s| && (i < |s| ==> s[i] == c) && forall k | 0 <= k < i :: s[k] != c
  {
    if s == "" || s[0] == c then 0 else 1 + IndexOf(s[1..], c)
  }

  // ---------- commas at the top level ----------

  predicate Opens(c: char) { c == '{' || c == '[' || c == '(' }

  predicate Closes(c: char) { c == '}' || c == ']' || c == ')' }

  /** The parts of s: `part` is what has been read of the current one, `escaped` says whether the
      character before was a backslash. */
  function SplitFrom(s: string, part: string, escaped: bool, depth: int, inStr: bool): (parts: seq<string>)
    ensures parts != []
    decreases |s|
  {
    if s == "" then [part]
    else
      var c := s[0];
      var esc := c == '\\';
      if c == '"' && !escaped then SplitFrom(s[1..], part + [c], esc, depth, !inStr)
      else if inStr then SplitFrom(s[1..], part + [c], esc, depth, inStr)
      else if Opens(c) then SplitFrom(s[1..], part + [c], esc, depth + 1, inStr)
      else if Closes(c) then SplitFrom(s[1..], part + [c], esc, depth - 1, inStr)
      else if c == ',' && depth == 0 then [part] + SplitFrom(s[1..], "", esc, depth, inStr)
      else SplitFrom(s[1..], part + [c], esc, depth, inStr)
  }

  method SplitTopLevelCommas(s: string) returns (out: seq<string>)
    ensures out == SplitFrom(s, "", false, 0, false)
  {
    out := [];
    var depth, last, inStr := 0, 0, false;
    var i := 0;
    assert s[0..] == s;
    while i < |s|
      invariant 0 <= last <= i <= |s|
      invariant out + SplitFrom(s[i..], s[last..i], i > 0 && s[i - 1] == '\\', depth, inStr) == SplitFrom(s, "", false, 0, false)
    {
      var c := s[i];
      assert s[i..][1..] == s[i + 1..] && s[last..i] + [c] == s[last..i + 1];
      if c == '"' && (i == 0 || s[i - 1] != '\\') {
        inStr := !inStr;
      } else if !inStr {
        if Opens(c) {
          depth := depth + 1;
        } else if Closes(c) {
          depth := depth - 1;
        } else if c == ',' && depth == 0 {
          ghost var rest := SplitFrom(s[i + 1..], "", false, depth, inStr);
          assert out + ([s[last..i]] + rest) == (out + [s[last..i]]) + rest;
          out := out + [s[last..i]];
          last := i + 1;
          assert s[last..i + 1] == "";
        }
      }
      i := i + 1;
    }
    assert s[i..] == "";
    out := out + [s[last..]];
    assert s[last..i] == s[last..];
  }

  // ---------- matchers ----------

  datatype Matcher = Matcher(name: string, op: string, val: string)

  datatype LineFilter = LineFilter(op: string, val: string)

  /** The first place outside quotes where s continues with op. */
  function FindOp(s: string, op: string, escaped: bool, inStr: bool): (i: Option<nat>)
    ensures i.Some? ==> i.value + |op| <= |s|
    decreases |s|
  {
    if |s| < |op| || s == "" then None
    else
      var quoted := if s[0] == '"' && !escaped then !inStr else inStr;
      if !quoted && op <= s then Some(0)
      else
        match FindOp(s[1..], op, s[0] == '\\', quoted)
        case None => None
        case Some(k) => Some(k + 1)
  }

  method IndexOpOutsideString(s: string, op: string) returns (i: Option<nat>)
    requires op != ""
    ensures i == FindOp(s, op, false, false)
  {
    var inStr, k := false, 0;
    assert s[0..] == s;
    while k <= |s| - |op|
      invariant 0 <= k <= |s|
      invariant FindOp(s, op, false, false) ==
                match FindOp(s[k..], op, k > 0 && s[k - 1] == '\\', inStr)
                case None => None
                case Some(j) => Some(k + j)
      decreases |s| - k
    {
      assert s[k..][1..] == s[k + 1..];
      assert op <= s[k..] <==> s[k..k + |op|] == op;
      if s[k] == '"' && (k == 0 || s[k - 1] != '\\') {
        inStr := !inStr;
      }
      if !inStr {
        if s[k..k + |op|] == op {
          return Some(k);
        }
      }
      k := k + 1;
    }
    return None;
  }

  const Operators: seq<string> := ["=~", "!~", "!=", "="]

  predicate Quoted(v: string) {
    |v| >= 2 && v[0] == '"' && v[|v| - 1] == '"'
  }

  /** The matcher of s split at the first of these operators that occurs in it. */
  function MatcherBy(s: string, ops: seq<string>): Option<Matcher> {
    if ops == [] then None
    else
      match FindOp(s, ops[0], false, false)
      case Some(idx) =>
        if idx == 0 then MatcherBy(s, ops[1..])
        else
          var val := TrimSpace(s[idx + |ops[0]|..]);
          if !Quoted(val) then None
          else Some(Matcher(TrimSpace(s[..idx]), ops[0], val[1..|val| - 1]))
      case None => MatcherBy(s, ops[1..])
  }

  function MatcherOf(s: string): Option<Matcher> {
    MatcherBy(s, Operators)
  }

  method ParseMatcher(s: string) returns (m: Option<Matcher>)
    ensures m == MatcherOf(s)
  {
    hide FindOp, TrimSpace, Quoted;
    for k := 0 to 4
      invariant MatcherBy(s, Operators) == MatcherBy(s, Operators[k..])
    {
      var op := Operators[k];
      assert Operators[k..][0] == op && Operators[k..][1..] == Operators[k + 1..];
      var idx := IndexOpOutsideString(s, op);
      if idx.Some? && idx.value > 0 {
        var name := TrimSpace(s[..idx.value]);
        var val := TrimSpace(s[idx.value + |op|..]);
        if !Quoted(val) {
          return None;
        }
        QuotedLength(val);
        return Some(Matcher(name, op, val[1..|val| - 1]));
      }
    }
    return None;
  }

  lemma QuotedLength(v: string)
    requires Quoted(v)
    ensures |v| >= 2
  {}

  /** The matchers of the non-empty parts, or nothing if one of them is malformed. */
  function MatchersOf(parts: seq<string>): Option<seq<Matcher>> {
    if parts == [] then Some([])
    else
      match MatchersOf(parts[..|parts| - 1])
      case None => None
      case Some(ms) =>
        var part := TrimSpace(parts[|parts| - 1]);
        if part == "" then Some(ms)
        else
          match MatcherOf(part)
          case None => None
          case Some(m) => Some(ms + [m])
  }

  /** The matchers of a selector and the text after it. */
  function SelectorOf(query: string): Option<(seq<Matcher>, string)> {
    var q := TrimSpace(query);
    if q == "" || q[0] != '{' then None
    else
      var end := IndexOf(q, '}');
      if end == |q| then None
      else
        match MatchersOf(SplitFrom(q[1..end], "", false, 0, false))
        case None => None
        case Some(ms) => Some((ms, TrimSpace(q[end + 1..])))
  }

  method ParseStreamSelector(query: string) returns (r: Option<(seq<Matcher>, string)>)
    ensures r == SelectorOf(query)
  {
    hide SplitFrom, TrimSpace, MatcherOf;
    var q := TrimSpace(query);
    if q == "" || q[0] != '{' {
      return None;
    }
    var end := IndexOf(q, '}');
    if end == |q| {
      return None;
    }
    var inner, rest := q[1..end], TrimSpace(q[end + 1..]);
    var parts := SplitTopLevelCommas(inner);
    var matches := [];
    for k := 0 to |parts|
      invariant MatchersOf(parts[..k]) == Some(matches)
    {
      assert parts[..k + 1][..k] == parts[..k];
      var part := TrimSpace(parts[k]);
      if part != "" {
        var m := ParseMatcher(part);
        if m == None {
          Malformed(parts, k + 1);
          return None;
        }
        matches := matches + [m.value];
      }
    }
    assert parts[..|parts|] == parts;
    return Some((matches, rest));
  }

  lemma {:induction false} Malformed(parts: seq<string>, k: nat)
    requires k <= |parts| && MatchersOf(parts[..k]) == None
    ensures MatchersOf(parts) == None
  {
    hide TrimSpace, MatcherOf;
    if k < |parts| {
      assert parts[..|parts| - 1][..k] == parts[..k];
      Malformed(parts[..|parts| - 1], k);
    } else {
      assert parts[..k] == parts;
    }
  }

  // ---------- line filters ----------

  function FilterOp(s: string): Option<string> {
    if "|=" <= s then Some("|=")
    else if "|~" <= s then Some("|~")
    else if "!=" <= s then Some("!=")
    else if "!~" <= s then Some("!~")
    else None
  }

  /** Where the quoted text that s continues with ends: the first unescaped quote at or after j. */
  function CloseQuote(s: string, j: nat): (k: nat)
    ensures k < |s| ==> j <= k && s[k] == '"'
    decreases |s| - j
  {
    if j >= |s| then j
    else if s[j] == '\\' then CloseQuote(s, j + 2)
    else if s[j] == '"' then j
    else CloseQuote(s, j + 1)
  }

  function FiltersOf(text: string): Option<seq<LineFilter>>
    decreases |text|
  {
    var s := TrimSpace(text);
    if s == "" then Some([])
    else
      match FilterOp(s)
      case None => None
      case Some(op) =>
        var t := TrimSpace(s[|op|..]);
        if t == "" || t[0] != '"' then None
        else
          var j := CloseQuote(t, 1);
          if j >= |t| then None
          else
            match FiltersOf(t[j + 1..])
            case None => None
            case Some(fs) => Some([LineFilter(op, t[1..j])] + fs)
  }

  method ParseLineFilters(text: string) returns (r: Option<seq<LineFilter>>)
    ensures r == FiltersOf(text)
  {
    hide TrimSpace, FilterOp;
    var s := TrimSpace(text);
    ghost var left := text;
    var out := [];
    assert forall fs: seq<LineFilter> :: [] + fs == fs;
    while s != ""
      invariant s == TrimSpace(left)
      invariant FiltersOf(text) ==
                match FiltersOf(left)
                case None => None
                case Some(fs) => Some(out + fs)
      decreases |s|
    {
      var op := FilterOp(s);
      if op == None {
        return None;
      }
      OpIsShort(s);
      var t := TrimSpace(s[|op.value|..]);
      if t == "" || t[0] != '"' {
        return None;
      }
      var j := 1;
      while j < |t|
        invariant 1 <= j && CloseQuote(t, 1) == CloseQuote(t, j)
        decreases |t| - j
      {
        if t[j] == '\\' {
          j := j + 2;
          continue;
        }
        if t[j] == '"' {
          break;
        }
        j := j + 1;
      }
      if j >= |t| {
        return None;
      }
      var f := LineFilter(op.value, t[1..j]);
      left := t[j + 1..];
      assert forall fs: seq<LineFilter> :: out + ([f] + fs) == (out + [f]) + fs;
      out := out + [f];
      s := TrimSpace(t[j + 1..]);
    }
    assert out + [] == out;
    return Some(out);
  }

  lemma OpIsShort(s: string)
    requires FilterOp(s).Some?
    ensures |FilterOp(s).value| == 2 <= |s|
  {}
}
