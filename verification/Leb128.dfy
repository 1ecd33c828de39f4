/** LEB128 integers and section framing (pkg/plugin/testdata/builder.go), against the binary
    grammar of sections 5.2.2 and 5.5.2 of the WebAssembly Core Specification. */
module Leb128 {
  import opened Optional

  type Byte = x: int | 0 <= x < 256

  function Pow2(n: nat): (p: int)
    ensures p > 0
  {
    if n == 0 then 1 else 2 * Pow2(n - 1)
  }

  lemma Pow2Seven(n: nat)
    ensures Pow2(n + 7) == 128 * Pow2(n)
  {
    assert Pow2(n + 7) == 2 * Pow2(n + 6) == 4 * Pow2(n + 5) == 8 * Pow2(n + 4);
    assert Pow2(n + 4) == 2 * Pow2(n + 3) == 4 * Pow2(n + 2) == 8 * Pow2(n + 1);
  }

  lemma {:induction false} Pow2Grows(m: nat, n: nat)
    requires m <= n
    ensures Pow2(m) <= Pow2(n)
  {
    if m < n {
      Pow2Grows(m, n - 1);
    }
  }

  lemma Pow2Small()
    ensures Pow2(6) == 64 && Pow2(7) == 128
  {
    Pow2Seven(0);
    assert Pow2(7) == 2 * Pow2(6);
  }

  // ---------- encoding ----------

  function Unsigned(v: nat): (out: seq<Byte>)
    ensures out != []
  {
    if v < 128 then [v] else [v % 128 + 128] + Unsigned(v / 128)
  }

  function Size(v: int): nat {
    if v < 0 then -v - 1 else v
  }

  predicate Settled(v: int) {
    (v / 128 == 0 && v % 128 < 64) || (v / 128 == -1 && v % 128 >= 64)
  }

  function Signed(v: int): (out: seq<Byte>)
    ensures out != []
    decreases Size(v)
  {
    if Settled(v) then [v % 128] else [v % 128 + 128] + Signed(v / 128)
  }

  method EncodeULEB128(value: nat) returns (out: seq<Byte>)
    ensures out == Unsigned(value)
  {
    out := [];
    var v := value;
    while true
      invariant out + Unsigned(v) == Unsigned(value)
      decreases v
    {
      var b := v % 128;
      ghost var was := v;
      v := v / 128;
      if v != 0 {
        b := b + 128;
      }
      assert Unsigned(was) == if v == 0 then [b] else [b] + Unsigned(v);
      out := out + [b];
      if v == 0 {
        break;
      }
      assert out + Unsigned(v) == out[..|out| - 1] + ([b] + Unsigned(v));
    }
  }

  method EncodeSLEB128(value: int) returns (out: seq<Byte>)
    ensures out == Signed(value)
  {
    out := [];
    var v, more := value, true;
    while more
      invariant more ==> out + Signed(v) == Signed(value)
      invariant !more ==> out == Signed(value)
      decreases if more then Size(v) + 1 else 0
    {
      var b := v % 128;
      ghost var was := v;
      v := v / 128;
      if (v == 0 && b < 64) || (v == -1 && b >= 64) {
        more := false;
      } else {
        b := b + 128;
      }
      out := out + [b];
      assert more ==> out + Signed(v) == out[..|out| - 1] + ([b] + Signed(v));
    }
  }

  // ---------- the specification's grammar ----------

  /** uN of section 5.2.2, with what follows it. */
  function ReadU(bytes: seq<Byte>, n: nat): Option<(nat, seq<Byte>)> {
    if bytes == [] then None
    else if bytes[0] < 128 then
      if bytes[0] < Pow2(n) then Some((bytes[0], bytes[1..])) else None
    else if n <= 7 then None
    else
      match ReadU(bytes[1..], n - 7)
      case None => None
      case Some((m, rest)) => Some((128 * m + (bytes[0] - 128), rest))
  }

  /** sN of section 5.2.2, with what follows it. */
  function ReadS(bytes: seq<Byte>, n: nat): Option<(int, seq<Byte>)>
    requires n > 0
  {
    if bytes == [] then None
    else if bytes[0] < 64 then
      if bytes[0] < Pow2(n - 1) then Some((bytes[0], bytes[1..])) else None
    else if bytes[0] < 128 then
      if bytes[0] + Pow2(n - 1) >= 128 then Some((bytes[0] as int - 128, bytes[1..])) else None
    else if n <= 7 then None
    else
      match ReadS(bytes[1..], n - 7)
      case None => None
      case Some((m, rest)) => Some((128 * m + (bytes[0] - 128), rest))
  }

  /** Reading an encoding back gives the value and the rest, exactly when the value fits n bits. */
  lemma {:induction false} ReadUnsigned(v: nat, rest: seq<Byte>, n: nat)
    ensures ReadU(Unsigned(v) + rest, n) == if v < Pow2(n) then Some((v, rest)) else None
    decreases v
  {
    var bytes := Unsigned(v) + rest;
    if v < 128 {
      assert bytes[1..] == rest;
    } else {
      assert bytes[1..] == Unsigned(v / 128) + rest;
      if n > 7 {
        ReadUnsigned(v / 128, rest, n - 7);
        Pow2Seven(n - 7);
      } else {
        Pow2Grows(n, 7);
        Pow2Small();
      }
    }
  }

  predicate Fits(v: int, n: nat)
    requires n > 0
  {
    0 - Pow2(n - 1) <= v < Pow2(n - 1)
  }

  lemma {:induction false} ReadSigned(v: int, rest: seq<Byte>, n: nat)
    requires n > 0
    ensures ReadS(Signed(v) + rest, n) == if Fits(v, n) then Some((v, rest)) else None
    decreases Size(v)
  {
    var bytes := Signed(v) + rest;
    if Settled(v) {
      assert bytes[1..] == rest;
    } else {
      assert bytes[1..] == Signed(v / 128) + rest;
      if n > 7 {
        ReadSigned(v / 128, rest, n - 7);
        Pow2Seven(n - 8);
      } else {
        Pow2Grows(n - 1, 6);
        Pow2Small();
      }
    }
  }

  /** Every byte string that denotes v is at least as long as the encoding of v. */
  lemma {:induction false} UnsignedIsShortest(bytes: seq<Byte>, n: nat)
    requires ReadU(bytes, n).Some?
    ensures var (v, rest) := ReadU(bytes, n).value;
            && v < Pow2(n) && |rest| + |Unsigned(v)| <= |bytes|
            && exists used :: bytes == used + rest
    decreases |bytes|
  {
    if bytes[0] < 128 {
      assert bytes == [bytes[0]] + bytes[1..];
    } else {
      UnsignedIsShortest(bytes[1..], n - 7);
      Pow2Seven(n - 7);
      var (m, rest) := ReadU(bytes[1..], n - 7).value;
      var used :| bytes[1..] == used + rest;
      assert bytes == ([bytes[0]] + used) + rest;
      var v := 128 * m + (bytes[0] - 128);
      assert v / 128 == m;
    }
  }

  lemma {:induction false} SignedIsShortest(bytes: seq<Byte>, n: nat)
    requires n > 0 && ReadS(bytes, n).Some?
    ensures var (v, rest) := ReadS(bytes, n).value;
            && Fits(v, n) && |rest| + |Signed(v)| <= |bytes|
            && exists used :: bytes == used + rest
    decreases |bytes|
  {
    if bytes[0] < 128 {
      assert bytes == [bytes[0]] + bytes[1..];
    } else {
      SignedIsShortest(bytes[1..], n - 7);
      Pow2Seven(n - 8);
      var (m, rest) := ReadS(bytes[1..], n - 7).value;
      var used :| bytes[1..] == used + rest;
      assert bytes == ([bytes[0]] + used) + rest;
      var v := 128 * m + (bytes[0] - 128);
      assert v / 128 == m;
    }
  }

  /** No encoding is a prefix of another's, and different values have different encodings. */
  lemma UnsignedPrefixFree(a: nat, b: nat, x: seq<Byte>, y: seq<Byte>)
    requires Unsigned(a) + x == Unsigned(b) + y
    ensures a == b && x == y
  {
    hide Unsigned, ReadU;
    var n := a + b + 1;
    Pow2Exceeds(n);
    ReadUnsigned(a, x, n);
    ReadUnsigned(b, y, n);
  }

  lemma SignedPrefixFree(a: int, b: int, x: seq<Byte>, y: seq<Byte>)
    requires Signed(a) + x == Signed(b) + y
    ensures a == b && x == y
  {
    hide Signed, ReadS;
    var n := Size(a) + Size(b) + 2;
    Pow2Exceeds(n - 1);
    ReadSigned(a, x, n);
    ReadSigned(b, y, n);
  }

  lemma {:induction false} Pow2Exceeds(n: nat)
    ensures Pow2(n) > n
  {
    if n > 0 {
      Pow2Exceeds(n - 1);
    }
  }

  /** An n-bit value takes at most one byte per seven bits. */
  lemma {:induction false} UnsignedLength(v: nat, n: nat)
    requires n > 0 && v < Pow2(n)
    ensures 7 * |Unsigned(v)| < n + 7
    decreases v
  {
    if v >= 128 {
      if n <= 7 {
        Pow2Grows(n, 7);
        Pow2Small();
      } else {
        Pow2Seven(n - 7);
        UnsignedLength(v / 128, n - 7);
      }
    }
  }

  lemma {:induction false} SignedLength(v: int, n: nat)
    requires n > 0 && Fits(v, n)
    ensures 7 * |Signed(v)| < n + 7
    decreases Size(v)
  {
    if !Settled(v) {
      if n <= 7 {
        Pow2Grows(n - 1, 6);
        Pow2Small();
      } else {
        Pow2Seven(n - 8);
        SignedLength(v / 128, n - 7);
      }
    }
  }

  /** Every 64-bit value round-trips, in at most ten bytes. */
  lemma SixtyFourBits(u: nat, s: int, rest: seq<Byte>)
    requires u < Pow2(64) && Fits(s, 64)
    ensures ReadU(Unsigned(u) + rest, 64) == Some((u, rest)) && |Unsigned(u)| <= 10
    ensures ReadS(Signed(s) + rest, 64) == Some((s, rest)) && |Signed(s)| <= 10
  {
    hide Unsigned, Signed, ReadU, ReadS, Pow2;
    ReadUnsigned(u, rest, 64);
    ReadSigned(s, rest, 64);
    UnsignedLength(u, 64);
    SignedLength(s, 64);
  }

  // ---------- sections ----------

  datatype Section = Section(id: Byte, payload: seq<Byte>)

  function Frame(s: Section): seq<Byte> {
    [s.id] + Unsigned(|s.payload|) + s.payload
  }

  function FrameAll(sections: seq<Section>): seq<Byte> {
    if sections == [] then [] else FrameAll(sections[..|sections| - 1]) + Frame(sections[|sections| - 1])
  }

  class Buffer {
    var data: seq<Byte>

    constructor ()
      ensures data == []
    {
      data := [];
    }

    method WriteByte(b: Byte)
      modifies this
      ensures data == old(data) + [b]
    {
      data := data + [b];
    }

    method Write(bytes: seq<Byte>)
      modifies this
      ensures data == old(data) + bytes
    {
      data := data + bytes;
    }
  }

  method WriteSection(b: Buffer, id: Byte, payload: seq<Byte>)
    modifies b
    ensures b.data == old(b.data) + Frame(Section(id, payload))
  {
    b.WriteByte(id);
    var size := EncodeULEB128(|payload|);
    b.Write(size);
    b.Write(payload);
  }

  /** One section of section 5.5.2: an id, a u32 size and as many bytes. */
  function ReadSection(bytes: seq<Byte>): Option<(Section, seq<Byte>)> {
    if bytes == [] then None
    else
      match ReadU(bytes[1..], 32)
      case None => None
      case Some((size, rest)) =>
        if size > |rest| then None else Some((Section(bytes[0], rest[..size]), rest[size..]))
  }

  function ReadSections(bytes: seq<Byte>): Option<seq<Section>>
    decreases |bytes|
  {
    if bytes == [] then Some([])
    else
      match ReadSection(bytes)
      case None => None
      case Some((s, rest)) =>
        SectionConsumes(bytes);
        match ReadSections(rest)
        case None => None
        case Some(tail) => Some([s] + tail)
  }

  lemma SectionConsumes(bytes: seq<Byte>)
    requires ReadSection(bytes).Some?
    ensures |ReadSection(bytes).value.1| < |bytes|
  {
    UnsignedIsShortest(bytes[1..], 32);
  }

  lemma ReadFrame(s: Section, rest: seq<Byte>)
    ensures ReadSection(Frame(s) + rest) == if |s.payload| < Pow2(32) then Some((s, rest)) else None
  {
    hide Unsigned, ReadU, Pow2;
    var bytes := Frame(s) + rest;
    assert bytes[1..] == Unsigned(|s.payload|) + (s.payload + rest);
    ReadUnsigned(|s.payload|, s.payload + rest, 32);
    assert (s.payload + rest)[..|s.payload|] == s.payload && (s.payload + rest)[|s.payload|..] == rest;
  }

  function FrameFrom(sections: seq<Section>): seq<Byte> {
    if sections == [] then [] else Frame(sections[0]) + FrameFrom(sections[1..])
  }

  lemma {:induction false} FrameAllFrom(before: seq<Section>, after: seq<Section>)
    ensures FrameAll(before + after) == FrameAll(before) + FrameFrom(after)
    decreases |after|
  {
    hide Frame;
    if after == [] {
      assert before + after == before;
    } else {
      FrameAllFrom(before + [after[0]], after[1..]);
      assert before + [after[0]] + after[1..] == before + after;
      assert (before + [after[0]])[..|before|] == before;
    }
  }

  /** Any list of sections reads back as the same list exactly when every payload is shorter than
      2^32 bytes, the size the format can carry. */
  lemma {:induction false} ReadSectionsBack(sections: seq<Section>)
    ensures ReadSections(FrameFrom(sections)) == Some(sections) <==> forall s <- sections :: |s.payload| < Pow2(32)
  {
    hide Pow2, Frame, ReadSection;
    if sections != [] {
      var first, rest := sections[0], sections[1..];
      ReadFrame(first, FrameFrom(rest));
      ReadSectionsBack(rest);
      assert sections == [first] + rest;
      FrameNotEmpty(first);
    }
  }

  lemma FrameNotEmpty(s: Section)
    ensures Frame(s) != []
  {}

  lemma WrittenSectionsReadBack(sections: seq<Section>)
    ensures ReadSections(FrameAll(sections)) == Some(sections) <==> forall s <- sections :: |s.payload| < Pow2(32)
  {
    hide Pow2, ReadSections, FrameFrom, FrameAll;
    FrameAllFrom([], sections);
    assert [] + sections == sections;
    assert FrameAll([]) + FrameFrom(sections) == FrameFrom(sections) by {
      EmptyFrame();
    }
    ReadSectionsBack(sections);
  }

  lemma EmptyFrame()
    ensures FrameAll([]) == []
  {}

  // ---------- export entries ----------

  /** An export entry writes its name's length as one raw byte. */
  function ExportEntry(name: seq<Byte>, kind: Byte, idx: nat): seq<Byte> {
    [|name| % 256] + name + [kind] + Unsigned(idx)
  }

  /** A name of the format: a u32 length and as many bytes. */
  function ReadName(bytes: seq<Byte>): Option<(seq<Byte>, seq<Byte>)> {
    match ReadU(bytes, 32)
    case None => None
    case Some((size, rest)) => if size > |rest| then None else Some((rest[..size], rest[size..]))
  }

  /** The raw length byte is a length of the format exactly for names shorter than 128 bytes. */
  lemma ExportNameIffShort(name: seq<Byte>, kind: Byte, idx: nat)
    ensures ReadName(ExportEntry(name, kind, idx)) == Some((name, [kind] + Unsigned(idx))) <==> |name| < 128
  {
    hide Unsigned;
    var bytes, after := ExportEntry(name, kind, idx), [kind] + Unsigned(idx);
    assert bytes[1..] == name + after;
    if |name| < 128 {
      Pow2Grows(7, 32);
      Pow2Small();
      assert (name + after)[..|name|] == name && (name + after)[|name|..] == after;
    } else if ReadName(bytes) == Some((name, after)) {
      hide Pow2;
      var (size, rest) := ReadU(bytes, 32).value;
      assert size == |name| && |rest| == |name| + |after|;
      UnsignedIsShortest(bytes, 32);
      LongNeedsTwo(size);
    }
  }

  lemma LongNeedsTwo(v: nat)
    requires v >= 128
    ensures |Unsigned(v)| >= 2
  {}
}
