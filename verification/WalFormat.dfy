/** Byte layout of the write-ahead log (pkg/wal/wal.go): little-endian words, the
    20-byte entry header, and what the two scanners read from arbitrary bytes.

    The CRC-32 routine is a library call: every definition here takes it as a
    parameter `crc` and assumes nothing about it. */
module WalFormat {
  import opened Optional

  type Byte = b: int | 0 <= b < 256

  const TWO32: nat := 0x1_0000_0000
  const TWO63: int := 0x8000_0000_0000_0000
  const TWO64: nat := 0x1_0000_0000_0000_0000

  type Word32 = w: int | 0 <= w < TWO32
  type Int64 = t: int | -TWO63 <= t < TWO63
  type Crc = seq<Byte> -> Word32

  const LOG_MAGIC: Word32 := 0xCAFE0001
  const LOG_HEADER_SIZE: nat := 20

  /** One log record: the nanosecond timestamp and the payload. */
  datatype Entry = Entry(timestamp: Int64, payload: seq<Byte>)

  // ---------- little-endian words ----------

  function PutLE(v: nat, n: nat): (s: seq<Byte>)
    ensures |s| == n
  {
    if n == 0 then [] else [v % 256] + PutLE(v / 256, n - 1)
  }

  function GetLE(s: seq<Byte>): nat {
    if s == [] then 0 else s[0] + 256 * GetLE(s[1..])
  }

  function Pow256(n: nat): nat {
    if n == 0 then 1 else 256 * Pow256(n - 1)
  }

  /** Reading back a word gives it modulo the width: storing truncates, nothing else is lost. */
  lemma {:induction false} GetPutLE(v: nat, n: nat)
    ensures v < Pow256(n) ==> GetLE(PutLE(v, n)) == v
  {
    if n > 0 {
      GetPutLE(v / 256, n - 1);
      assert PutLE(v, n)[1..] == PutLE(v / 256, n - 1);
    }
  }

  lemma {:induction false} PutGetLE(s: seq<Byte>)
    ensures GetLE(s) < Pow256(|s|)
    ensures PutLE(GetLE(s), |s|) == s
  {
    if s != [] {
      PutGetLE(s[1..]);
      assert GetLE(s) / 256 == GetLE(s[1..]);
      assert s == [s[0]] + s[1..];
    }
  }

  lemma Widths()
    ensures Pow256(4) == TWO32 && Pow256(8) == TWO64
  {}

  /** Go's conversion uint64(ts) and back. */
  function ToUint64(t: Int64): nat {
    if t < 0 then t + TWO64 else t
  }

  function FromUint64(u: nat): Int64
    requires u < TWO64
  {
    if u >= TWO63 then u - TWO64 else u
  }

  // ---------- entries ----------

  /** The entries both scanners can read back: not empty, and short enough for the 32-bit length. */
  predicate Storable(e: Entry) {
    0 < |e.payload| < TWO32
  }

  predicate AllStorable(es: seq<Entry>) {
    forall e <- es :: Storable(e)
  }

  function EntrySize(e: Entry): nat {
    LOG_HEADER_SIZE + |e.payload|
  }

  function Header(e: Entry, crc: Crc): (h: seq<Byte>)
    ensures |h| == LOG_HEADER_SIZE
  {
    PutLE(LOG_MAGIC, 4) + PutLE(|e.payload| % TWO32, 4) + PutLE(crc(e.payload), 4) + PutLE(ToUint64(e.timestamp), 8)
  }

  function Frame(e: Entry, crc: Crc): (f: seq<Byte>)
    ensures |f| == EntrySize(e)
  {
    Header(e, crc) + e.payload
  }

  function FrameAll(es: seq<Entry>, crc: Crc): seq<Byte> {
    if es == [] then [] else Frame(es[0], crc) + FrameAll(es[1..], crc)
  }

  function Zeros(n: nat): seq<Byte> {
    seq(n, _ => 0)
  }

  // ---------- what the scanners read ----------

  /** The entry at the front of `d`, if the magic, the length and the checksum accept it. */
  function ReadHead(d: seq<Byte>, crc: Crc): (r: Option<Entry>)
    ensures r.Some? ==> EntrySize(r.value) <= |d| && Storable(r.value)
  {
    if |d| < LOG_HEADER_SIZE || GetLE(d[..4]) != LOG_MAGIC then None
    else
      var length := GetLE(d[4..8]);
      if length == 0 || LOG_HEADER_SIZE + length > |d| then None
      else
        PutGetLE(d[4..8]); PutGetLE(d[12..20]); Widths();
        var payload := d[LOG_HEADER_SIZE..LOG_HEADER_SIZE + length];
        if crc(payload) != GetLE(d[8..12]) then None
        else Some(Entry(FromUint64(GetLE(d[12..20])), payload))
  }

  /** All entries a scan of `d` meets. */
  function Replay(d: seq<Byte>, crc: Crc): seq<Entry>
    decreases |d|
  {
    match ReadHead(d, crc)
    case None => []
    case Some(e) => [e] + Replay(d[EntrySize(e)..], crc)
  }

  /** The offset at which a scan of `d` stops. */
  function ValidLength(d: seq<Byte>, crc: Crc): (n: nat)
    ensures n <= |d|
    decreases |d|
  {
    match ReadHead(d, crc)
    case None => 0
    case Some(e) => EntrySize(e) + ValidLength(d[EntrySize(e)..], crc)
  }

  // ---------- round trips ----------

  lemma HeaderFields(e: Entry, crc: Crc, d: seq<Byte>)
    requires |d| >= LOG_HEADER_SIZE && d[..LOG_HEADER_SIZE] == Header(e, crc)
    ensures GetLE(d[..4]) == LOG_MAGIC
    ensures GetLE(d[4..8]) == |e.payload| % TWO32
    ensures GetLE(d[8..12]) == crc(e.payload)
    ensures GetLE(d[12..20]) == ToUint64(e.timestamp)
  {
    var h := Header(e, crc);
    assert d[..4] == h[..4] == PutLE(LOG_MAGIC, 4);
    assert d[4..8] == h[4..8] == PutLE(|e.payload| % TWO32, 4);
    assert d[8..12] == h[8..12] == PutLE(crc(e.payload), 4);
    assert d[12..20] == h[12..20] == PutLE(ToUint64(e.timestamp), 8);
    Widths();
    GetPutLE(LOG_MAGIC, 4);
    GetPutLE(|e.payload| % TWO32, 4);
    GetPutLE(crc(e.payload), 4);
    GetPutLE(ToUint64(e.timestamp), 8);
  }

  /** A framed entry is read back whatever bytes follow it. */
  lemma ReadFrame(e: Entry, crc: Crc, rest: seq<Byte>)
    requires Storable(e)
    ensures ReadHead(Frame(e, crc) + rest, crc) == Some(e)
  {
    var d := Frame(e, crc) + rest;
    assert d[..LOG_HEADER_SIZE] == Header(e, crc);
    HeaderFields(e, crc, d);
    assert d[LOG_HEADER_SIZE..LOG_HEADER_SIZE + |e.payload|] == e.payload;
  }

  /** An empty payload is written, but the scanners take its zero length for the end of the data. */
  lemma EmptyEntryEndsScan(e: Entry, crc: Crc, rest: seq<Byte>)
    requires e.payload == []
    ensures ReadHead(Frame(e, crc) + rest, crc) == None
  {
    var d := Frame(e, crc) + rest;
    assert d[..LOG_HEADER_SIZE] == Header(e, crc);
    HeaderFields(e, crc, d);
  }

  lemma HeaderOfRead(d: seq<Byte>, crc: Crc)
    requires ReadHead(d, crc).Some?
    ensures Header(ReadHead(d, crc).value, crc) == d[..LOG_HEADER_SIZE]
  {
    hide PutLE, GetLE;
    var e := ReadHead(d, crc).value;
    PutGetLE(d[..4]); PutGetLE(d[4..8]); PutGetLE(d[8..12]); PutGetLE(d[12..20]);
    Widths();
    assert ToUint64(e.timestamp) == GetLE(d[12..20]);
    assert |e.payload| % TWO32 == GetLE(d[4..8]);
    assert Header(e, crc) == d[..4] + d[4..8] + d[8..12] + d[12..20];
    assert d[..4] + d[4..8] + d[8..12] + d[12..20] == d[..LOG_HEADER_SIZE];
  }

  /** What a scan accepts is exactly the frame of the entry it returns. */
  lemma FrameOfRead(d: seq<Byte>, crc: Crc)
    requires ReadHead(d, crc).Some?
    ensures var e := ReadHead(d, crc).value; Frame(e, crc) == d[..EntrySize(e)]
  {
    var e := ReadHead(d, crc).value;
    HeaderOfRead(d, crc);
    assert d[..EntrySize(e)] == d[..LOG_HEADER_SIZE] + e.payload;
  }

  lemma ZerosEndScan(n: nat, crc: Crc)
    ensures ReadHead(Zeros(n), crc) == None
  {}

  /** Replaying frames followed by anything gives the entries, then whatever the rest replays to. */
  lemma {:induction false} ReplayFrames(es: seq<Entry>, crc: Crc, rest: seq<Byte>)
    requires AllStorable(es)
    ensures Replay(FrameAll(es, crc) + rest, crc) == es + Replay(rest, crc)
    ensures ValidLength(FrameAll(es, crc) + rest, crc) == |FrameAll(es, crc)| + ValidLength(rest, crc)
    decreases |es|
  {
    hide ReadHead, Frame;
    var d := FrameAll(es, crc) + rest;
    if es == [] {
      assert d == rest;
      assert es + Replay(rest, crc) == Replay(rest, crc);
    } else {
      var tail := FrameAll(es[1..], crc) + rest;
      assert d == Frame(es[0], crc) + tail;
      ReadFrame(es[0], crc, tail);
      assert d[EntrySize(es[0])..] == tail;
      ReplayFrames(es[1..], crc, rest);
      assert es + Replay(rest, crc) == [es[0]] + (es[1..] + Replay(rest, crc));
    }
  }

  /** Both scanners stop at the same place: the bytes before `ValidLength` are exactly the
      frames of the replayed entries, and nothing readable starts there. */
  lemma {:induction false} ScanBoundary(d: seq<Byte>, crc: Crc)
    ensures AllStorable(Replay(d, crc))
    ensures FrameAll(Replay(d, crc), crc) == d[..ValidLength(d, crc)]
    ensures ReadHead(d[ValidLength(d, crc)..], crc) == None
    decreases |d|
  {
    hide ReadHead, Frame;
    match ReadHead(d, crc)
    case None => assert d[0..] == d;
    case Some(e) =>
      var rest := d[EntrySize(e)..];
      FrameOfRead(d, crc);
      ScanBoundary(rest, crc);
      var n := ValidLength(rest, crc);
      assert Replay(d, crc)[1..] == Replay(rest, crc);
      assert d[..EntrySize(e) + n] == d[..EntrySize(e)] + rest[..n];
      assert d[EntrySize(e) + n..] == rest[n..];
  }

  /** No longer run of readable entries starts `d`: any framed list that is a prefix of the
      bytes is a prefix of the replay. */
  lemma ReplayIsLongest(d: seq<Byte>, crc: Crc, es: seq<Entry>)
    requires AllStorable(es) && FrameAll(es, crc) <= d
    ensures es <= Replay(d, crc)
    ensures |FrameAll(es, crc)| <= ValidLength(d, crc)
  {
    var n := |FrameAll(es, crc)|;
    assert d == FrameAll(es, crc) + d[n..];
    ReplayFrames(es, crc, d[n..]);
  }

  lemma {:induction false} FrameAllConcat(a: seq<Entry>, b: seq<Entry>, crc: Crc)
    ensures FrameAll(a + b, crc) == FrameAll(a, crc) + FrameAll(b, crc)
    decreases |a|
  {
    hide Frame;
    if a == [] {
      assert a + b == b;
    } else {
      FrameAllConcat(a[1..], b, crc);
      assert (a + b)[1..] == a[1..] + b;
    }
  }

  /** Damage at or after offset `k` keeps every entry that ends by `k`. */
  lemma DamageKeepsEarlierEntries(d: seq<Byte>, damaged: seq<Byte>, k: nat, n: nat, crc: Crc)
    requires k <= |d| && k <= |damaged| && d[..k] == damaged[..k]
    requires n <= |Replay(d, crc)| && |FrameAll(Replay(d, crc)[..n], crc)| <= k
    ensures Replay(d, crc)[..n] <= Replay(damaged, crc)
  {
    var kept, lost := Replay(d, crc)[..n], Replay(d, crc)[n..];
    ScanBoundary(d, crc);
    assert kept + lost == Replay(d, crc);
    FrameAllConcat(kept, lost, crc);
    assert FrameAll(kept, crc) <= d[..ValidLength(d, crc)] <= d;
    assert FrameAll(kept, crc) == d[..k][..|FrameAll(kept, crc)|] == damaged[..k][..|FrameAll(kept, crc)|];
    ReplayIsLongest(damaged, crc, kept);
  }

  /** Resuming: entries written from the scan boundary on, over whatever bytes were there, are
      replayed after the old ones; nothing else is added when the bytes after them are zero. */
  lemma ResumeAppends(d: seq<Byte>, added: seq<Entry>, tail: seq<Byte>, crc: Crc)
    requires AllStorable(added)
    ensures var resumed := d[..ValidLength(d, crc)] + FrameAll(added, crc) + tail;
            && Replay(d, crc) + added <= Replay(resumed, crc)
            && (tail == Zeros(|tail|) ==> Replay(resumed, crc) == Replay(d, crc) + added)
  {
    var es := Replay(d, crc) + added;
    ScanBoundary(d, crc);
    FrameAllConcat(Replay(d, crc), added, crc);
    ReplayFrames(es, crc, tail);
    assert d[..ValidLength(d, crc)] + FrameAll(added, crc) + tail == FrameAll(es, crc) + tail;
    if tail == Zeros(|tail|) {
      ZerosEndScan(|tail|, crc);
      assert es + [] == es;
    }
  }

  // ---------- segments that also hold empty entries ----------

  /** The entries before the first empty one. */
  function BeforeFirstEmpty(es: seq<Entry>): seq<Entry> {
    if es == [] || es[0].payload == [] then [] else [es[0]] + BeforeFirstEmpty(es[1..])
  }

  predicate Short(es: seq<Entry>) {
    forall e <- es :: |e.payload| < TWO32
  }

  /** A zero-padded segment replays to the run before its first empty entry. */
  lemma {:induction false} ReplaySegment(es: seq<Entry>, n: nat, crc: Crc)
    requires Short(es)
    ensures Replay(FrameAll(es, crc) + Zeros(n), crc) == BeforeFirstEmpty(es)
    decreases |es|
  {
    hide Frame;
    var d := FrameAll(es, crc) + Zeros(n);
    if es == [] {
      assert d == Zeros(n);
      ZerosEndScan(n, crc);
    } else {
      var tail := FrameAll(es[1..], crc) + Zeros(n);
      assert d == Frame(es[0], crc) + tail;
      if es[0].payload == [] {
        EmptyEntryEndsScan(es[0], crc, tail);
      } else {
        assert d == FrameAll([es[0]], crc) + tail by { assert FrameAll([es[0]], crc) == Frame(es[0], crc) + []; }
        ReplayFrames([es[0]], crc, tail);
        ReplaySegment(es[1..], n, crc);
      }
    }
  }

  lemma {:induction false} BeforeFirstEmptyIsAll(es: seq<Entry>)
    requires AllStorable(es)
    ensures BeforeFirstEmpty(es) == es
  {
    if es != [] {
      assert Storable(es[0]);
      BeforeFirstEmptyIsAll(es[1..]);
    }
  }
}
