/** Query text with positional parameters, shared by the PromQL and LogQL compilers: counting the
    parameters of a text, joining clauses, and label names that are safe inside the text. */
module SqlText {
  /** The number of positional parameters of a text. */
  function Holes(s: string): nat {
    if s == "" then 0 else Holes(s[..|s| - 1]) + if s[|s| - 1] == '?' then 1 else 0
  }

  lemma {:induction false} HolesConcat(a: string, b: string)
    ensures Holes(a + b) == Holes(a) + Holes(b)
  {
    if b == "" {
      assert a + b == a;
    } else {
      HolesConcat(a, b[..|b| - 1]);
      assert (a + b)[..|a + b| - 1] == a + b[..|b| - 1];
    }
  }

  lemma {:induction false} NoHoles(s: string)
    requires '?' !in s
    ensures Holes(s) == 0
  {
    if s != "" {
      NoHoles(s[..|s| - 1]);
    }
  }

  lemma OneHole(before: string, after: string)
    requires '?' !in before && '?' !in after
    ensures Holes(before + "?" + after) == 1
  {
    NoHoles(before);
    NoHoles(after);
    assert "?"[..0] == "" && Holes("?") == 1;
    HolesConcat(before, "?");
    HolesConcat(before + "?", after);
  }

  /** Adding text without parameters on both sides. */
  lemma HolesAround(before: string, s: string, after: string)
    requires '?' !in before && '?' !in after
    ensures Holes(before + s + after) == Holes(s)
  {
    NoHoles(before);
    NoHoles(after);
    hide Holes;
    HolesConcat(before, s);
    HolesConcat(before + s, after);
  }

  // ---------- joined clauses ----------

  function Join(cs: seq<string>, sep: string): string {
    if cs == [] then ""
    else if |cs| == 1 then cs[0]
    else Join(cs[..|cs| - 1], sep) + sep + cs[|cs| - 1]
  }

  /** Every clause has one parameter. */
  predicate Single(cs: seq<string>) {
    forall c <- cs :: Holes(c) == 1
  }

  lemma SingleTogether(cs: seq<string>, ds: seq<string>)
    requires Single(cs) && Single(ds)
    ensures Single(cs + ds)
  {}

  lemma {:induction false} JoinHoles(cs: seq<string>, sep: string)
    requires Single(cs) && '?' !in sep
    ensures Holes(Join(cs, sep)) == |cs|
  {
    hide Holes;
    if |cs| == 1 {
      assert cs[0] in cs;
    } else if cs != [] {
      var before, c := cs[..|cs| - 1], cs[|cs| - 1];
      assert c in cs && forall x <- before :: x in cs;
      JoinHoles(before, sep);
      NoHoles(sep);
      HolesConcat(Join(before, sep), sep);
      HolesConcat(Join(before, sep) + sep, c);
    } else {
      NoHoles("");
    }
  }

  lemma JoinAppend(cs: seq<string>, last: string, sep: string)
    requires Single(cs) && '?' !in sep
    ensures Holes(Join(cs + [last], sep)) == |cs| + Holes(last)
  {
    hide Single;
    JoinHoles(cs, sep);
    NoHoles(sep);
    hide Holes;
    assert (cs + [last])[..|cs|] == cs;
    if cs != [] {
      HolesConcat(Join(cs, sep), sep);
      HolesConcat(Join(cs, sep) + sep, last);
    }
  }

  lemma {:induction false} JoinPlain(cs: seq<string>, sep: string)
    requires '?' !in sep && forall c <- cs :: '?' !in c
    ensures '?' !in Join(cs, sep)
  {
    if |cs| > 1 {
      var before, c := cs[..|cs| - 1], cs[|cs| - 1];
      assert c in cs && forall x <- before :: x in cs;
      JoinPlain(before, sep);
    } else if |cs| == 1 {
      assert cs[0] in cs;
    }
  }

  const RANGE := "timestamp BETWEEN ? AND ?"

  lemma RangeHoles()
    ensures Holes(RANGE) == 2
  {
    OneHole("timestamp BETWEEN ", " AND ");
    OneHole("", "");
    assert "" + "?" + "" == "?";
    hide Holes;
    HolesConcat("timestamp BETWEEN " + "?" + " AND ", "?");
    assert "timestamp BETWEEN " + "?" + " AND " + "?" == RANGE;
  }

  // ---------- label names ----------

  predicate KeyChar(c: char) {
    'a' <= c <= 'z' || 'A' <= c <= 'Z' || '0' <= c <= '9' || c == '_' || c == '-' || c == '.'
  }

  /** A label name that is put into the text as it is, or refused. */
  function SafeKey(s: string): (k: string)
    ensures '?' !in k && '\'' !in k
  {
    if forall c <- s :: KeyChar(c) then s else "INVALID"
  }
}
