/** The write-ahead log as a value: the bytes of every segment file, the active segment and its
    append offset, and how `Write`, `rotate` and the recovering constructor change them.

    Each store is related to a journal, the list of entries written to each segment, and the
    run theorems say what a replay of the whole directory then returns. */
module WalLog {
  import opened Optional
  import opened WalFormat

  type Files = map<nat, seq<Byte>>
  type Journal = seq<seq<Entry>>

  datatype Store = Store(files: Files, active: nat, offset: nat)

  // ---------- the operations on bytes ----------

  /** `Truncate`: cut to `n` bytes, or extend with zeros. */
  function Resize(d: seq<Byte>, n: nat): (r: seq<Byte>)
    ensures |r| == n
  {
    if |d| >= n then d[..n] else d + Zeros(n - |d|)
  }

  /** Overwrite the bytes at `off`. */
  function Overwrite(d: seq<Byte>, off: nat, bytes: seq<Byte>): (r: seq<Byte>)
    requires off + |bytes| <= |d|
    ensures |r| == |d|
  {
    d[..off] + bytes + d[off + |bytes|..]
  }

  function OpenSegment(files: Files, id: nat, capacity: nat): Store {
    Store(files[id := Resize(if id in files then files[id] else [], capacity)], id, 0)
  }

  ghost predicate IsHighest(files: Files, id: nat) {
    id in files && forall k <- files :: k <= id
  }

  lemma {:induction false} HighestExists(files: Files)
    requires files != map[]
    ensures exists id :: IsHighest(files, id)
    decreases |files|
  {
    var x :| x in files;
    var rest := map k | k in files && k != x :: files[k];
    assert forall k <- files :: k == x || k in rest;
    if rest == map[] {
      assert IsHighest(files, x);
    } else {
      assert rest.Keys == files.Keys - {x};
      HighestExists(rest);
      var y :| IsHighest(rest, y);
      assert IsHighest(files, if x <= y then y else x);
    }
  }

  /** Opening a directory: a fresh segment 1, or the highest segment at the end of its readable data. */
  ghost function Open(files: Files, capacity: nat, crc: Crc): Store {
    if files == map[] then OpenSegment(files, 1, capacity)
    else
      HighestExists(files);
      var last: nat :| IsHighest(files, last);
      var s := OpenSegment(files, last, capacity);
      s.(offset := ValidLength(s.files[last], crc))
  }

  predicate Fits(e: Entry, capacity: nat) {
    EntrySize(e) <= capacity
  }

  predicate Consistent(s: Store, capacity: nat) {
    && s.active in s.files && |s.files[s.active]| == capacity && s.offset <= capacity
    && forall id <- s.files :: id <= s.active
  }

  function Rotate(s: Store, capacity: nat): Store {
    OpenSegment(s.files, s.active + 1, capacity)
  }

  /** `Write` of an entry that fits a fresh segment. */
  function Append(s: Store, e: Entry, capacity: nat, crc: Crc): (r: Store)
    requires Consistent(s, capacity) && Fits(e, capacity)
    ensures Consistent(r, capacity)
  {
    var s := if s.offset + EntrySize(e) > capacity then Rotate(s, capacity) else s;
    Store(s.files[s.active := Overwrite(s.files[s.active], s.offset, Frame(e, crc))], s.active, s.offset + EntrySize(e))
  }

  // ---------- what a replay of the directory returns ----------

  /** The replays of the segments with id below `n`, oldest first. */
  function Segments(files: Files, n: nat, crc: Crc): seq<seq<Entry>> {
    if n == 0 then []
    else Segments(files, n - 1, crc) + if n - 1 in files then [Replay(files[n - 1], crc)] else []
  }

  function Flatten(segments: seq<seq<Entry>>): seq<Entry> {
    if segments == [] then [] else Flatten(segments[..|segments| - 1]) + segments[|segments| - 1]
  }

  lemma {:induction false} SegmentsGap(files: Files, m: nat, n: nat, crc: Crc)
    requires m <= n && forall k <- files :: k < m || n <= k
    ensures Segments(files, n, crc) == Segments(files, m, crc)
    decreases n
  {
    if m < n {
      SegmentsGap(files, m, n - 1, crc);
    }
  }

  /** The next segment in id order adds its replay. */
  lemma SegmentsNext(files: Files, m: nat, id: nat, crc: Crc)
    requires m <= id && id in files && forall k <- files :: k < m || id <= k
    ensures Segments(files, id + 1, crc) == Segments(files, m, crc) + [Replay(files[id], crc)]
  {
    SegmentsGap(files, m, id, crc);
  }

  lemma {:induction false} SegmentsAgree(a: Files, b: Files, n: nat, crc: Crc)
    requires forall k: nat | k < n :: (k in a <==> k in b) && (k in a ==> a[k] == b[k])
    ensures Segments(a, n, crc) == Segments(b, n, crc)
  {
    if n > 0 {
      SegmentsAgree(a, b, n - 1, crc);
    }
  }

  /** Damage to one segment, in any bytes at or after offset `k`, changes the replay of that segment
      alone, and keeps its first `m` entries if they end by `k`. */
  lemma DamageStaysInItsSegment(files: Files, id: nat, damaged: seq<Byte>, k: nat, m: nat, n: nat, crc: Crc)
    requires id in files && id < n
    requires k <= |files[id]| && k <= |damaged| && files[id][..k] == damaged[..k]
    requires m <= |Replay(files[id], crc)| && |FrameAll(Replay(files[id], crc)[..m], crc)| <= k
    ensures var was, now, p := Segments(files, n, crc), Segments(files[id := damaged], n, crc), |Segments(files, id, crc)|;
            && p < |was| == |now|
            && (forall i | 0 <= i < |was| && i != p :: now[i] == was[i])
            && was[p] == Replay(files[id], crc) && now[p] == Replay(damaged, crc)
            && was[p][..m] <= now[p]
    decreases n
  {
    hide Replay, FrameAll;
    DamageKeepsEarlierEntries(files[id], damaged, k, m, crc);
    if id == n - 1 {
      SegmentsAgree(files, files[id := damaged], id, crc);
    } else {
      DamageStaysInItsSegment(files, id, damaged, k, m, n - 1, crc);
    }
  }

  // ---------- journals ----------

  function FrameLength(es: seq<Entry>): nat {
    if es == [] then 0 else EntrySize(es[0]) + FrameLength(es[1..])
  }

  lemma {:induction false} FrameAllLength(es: seq<Entry>, crc: Crc)
    ensures |FrameAll(es, crc)| == FrameLength(es)
  {
    if es != [] { FrameAllLength(es[1..], crc); }
  }

  function Last(j: Journal): seq<Entry>
    requires j != []
  {
    j[|j| - 1]
  }

  function JournalAppend(j: Journal, e: Entry, capacity: nat): (r: Journal)
    requires j != []
    ensures r != []
  {
    if FrameLength(Last(j)) + EntrySize(e) > capacity then j + [[e]]
    else j[..|j| - 1] + [Last(j) + [e]]
  }

  /** Segments `base`, `base + 1`, ... start with the frames of the journal's lists, and end in
      zeros; `clean` says whether the first of them does too (it may hold damaged bytes). */
  ghost predicate Represents(s: Store, base: nat, j: Journal, clean: bool, capacity: nat, crc: Crc) {
    && j != [] && s.active == base + |j| - 1
    && (forall id <- s.files :: id <= s.active)
    && (forall i {:trigger j[i]} | 0 <= i < |j| :: SegmentHolds(s.files, base + i, j[i], clean || i > 0, capacity, crc))
    && s.offset == FrameLength(Last(j))
  }

  ghost predicate SegmentHolds(files: Files, id: nat, es: seq<Entry>, clean: bool, capacity: nat, crc: Crc) {
    && id in files && |files[id]| == capacity
    && FrameAll(es, crc) <= files[id]
    && (clean ==> files[id] == FrameAll(es, crc) + Zeros(capacity - |FrameAll(es, crc)|))
  }

  lemma RepresentsConsistent(s: Store, base: nat, j: Journal, clean: bool, capacity: nat, crc: Crc)
    requires Represents(s, base, j, clean, capacity, crc)
    ensures Consistent(s, capacity)
  {
    assert SegmentHolds(s.files, base + (|j| - 1), Last(j), clean || |j| > 1, capacity, crc);
    FrameAllLength(Last(j), crc);
  }

  lemma OverwriteExtends(d: seq<Byte>, es: seq<Entry>, e: Entry, clean: bool, crc: Crc)
    requires FrameAll(es, crc) <= d && FrameLength(es) + EntrySize(e) <= |d|
    requires clean ==> d == FrameAll(es, crc) + Zeros(|d| - |FrameAll(es, crc)|)
    ensures var r := Overwrite(d, FrameLength(es), Frame(e, crc));
            && FrameAll(es + [e], crc) <= r
            && (clean ==> r == FrameAll(es + [e], crc) + Zeros(|d| - |FrameAll(es + [e], crc)|))
  {
    hide Frame, ReadHead;
    FrameAllLength(es, crc);
    FrameAllConcat(es, [e], crc);
    assert FrameAll([e], crc) == Frame(e, crc) + [];
    assert FrameAll(es + [e], crc) == FrameAll(es, crc) + Frame(e, crc);
  }

  lemma AppendInPlace(s: Store, base: nat, j: Journal, clean: bool, e: Entry, capacity: nat, crc: Crc)
    requires Represents(s, base, j, clean, capacity, crc) && Consistent(s, capacity)
    requires s.offset + EntrySize(e) <= capacity
    ensures Represents(Append(s, e, capacity, crc), base, JournalAppend(j, e, capacity), clean, capacity, crc)
  {
    hide Frame, ReadHead, FrameAll, Overwrite;
    var last := |j| - 1;
    assert SegmentHolds(s.files, base + last, j[last], clean || last > 0, capacity, crc);
    var r, k := Append(s, e, capacity, crc), JournalAppend(j, e, capacity);
    OverwriteExtends(s.files[s.active], j[last], e, clean || last > 0, crc);
    assert SegmentHolds(r.files, base + last, k[last], clean || last > 0, capacity, crc);
    FrameLengthConcat(j[last], e);
    forall i | 0 <= i < |k| ensures SegmentHolds(r.files, base + i, k[i], clean || i > 0, capacity, crc) {
      if i < last {
        assert SegmentHolds(s.files, base + i, j[i], clean || i > 0, capacity, crc);
        assert k[i] == j[i];
      }
    }
  }

  lemma AppendRotating(s: Store, base: nat, j: Journal, clean: bool, e: Entry, capacity: nat, crc: Crc)
    requires Represents(s, base, j, clean, capacity, crc) && Consistent(s, capacity)
    requires Fits(e, capacity) && s.offset + EntrySize(e) > capacity
    ensures Represents(Append(s, e, capacity, crc), base, JournalAppend(j, e, capacity), clean, capacity, crc)
  {
    hide Frame, ReadHead, FrameAll, Overwrite;
    var last := |j| - 1;
    var r, k := Append(s, e, capacity, crc), JournalAppend(j, e, capacity);
    assert s.active + 1 !in s.files;
    assert Resize([], capacity) == Zeros(capacity);
    EmptyFrames(crc);
    assert [] + [e] == [e];
    OverwriteExtends(Zeros(capacity), [], e, true, crc);
    assert SegmentHolds(r.files, base + last + 1, k[last + 1], true, capacity, crc);
    assert FrameLength([e]) == EntrySize(e);
    forall i | 0 <= i < |k| ensures SegmentHolds(r.files, base + i, k[i], clean || i > 0, capacity, crc) {
      if i <= last {
        assert SegmentHolds(s.files, base + i, j[i], clean || i > 0, capacity, crc);
        assert k[i] == j[i];
      }
    }
  }

  /** One write moves the journal by one entry and leaves older segments alone. */
  lemma AppendRepresents(s: Store, base: nat, j: Journal, clean: bool, e: Entry, capacity: nat, crc: Crc)
    requires Represents(s, base, j, clean, capacity, crc) && Fits(e, capacity)
    ensures Consistent(s, capacity)
    ensures Represents(Append(s, e, capacity, crc), base, JournalAppend(j, e, capacity), clean, capacity, crc)
    ensures forall id | id < base :: id in Append(s, e, capacity, crc).files <==> id in s.files
    ensures forall id <- s.files | id < base :: Append(s, e, capacity, crc).files[id] == s.files[id]
  {
    hide Frame, Overwrite, SegmentHolds, JournalAppend, FrameLength;
    RepresentsConsistent(s, base, j, clean, capacity, crc);
    if s.offset + EntrySize(e) > capacity {
      AppendRotating(s, base, j, clean, e, capacity, crc);
    } else {
      AppendInPlace(s, base, j, clean, e, capacity, crc);
    }
  }

  lemma EmptyFrames(crc: Crc)
    ensures FrameAll([], crc) == []
  {}

  lemma {:induction false} FrameLengthConcat(es: seq<Entry>, e: Entry)
    ensures FrameLength(es + [e]) == FrameLength(es) + EntrySize(e)
  {
    if es == [] {
      assert es + [e] == [e];
    } else {
      FrameLengthConcat(es[1..], e);
      assert (es + [e])[1..] == es[1..] + [e];
    }
  }

  lemma OpenNothing(files: Files, capacity: nat, crc: Crc)
    requires files.Keys == {}
    ensures Open(files, capacity, crc) == OpenSegment(files, 1, capacity)
  {}

  lemma OpenAtHighest(files: Files, last: nat, capacity: nat, crc: Crc)
    requires IsHighest(files, last)
    ensures var s := OpenSegment(files, last, capacity);
            Open(files, capacity, crc) == s.(offset := ValidLength(s.files[last], crc))
  {}

  /** Recovery: whatever the files hold, the constructor resumes right behind the entries that
      the highest segment replays. */
  lemma OpenRepresents(files: Files, capacity: nat, crc: Crc)
    requires files != map[]
    ensures var s := Open(files, capacity, crc);
            var d := s.files[s.active];
            && IsHighest(files, s.active)
            && d == Resize(files[s.active], capacity)
            && (forall id | id != s.active :: id in s.files <==> id in files)
            && (forall id <- files | id != s.active :: s.files[id] == files[id])
            && Represents(s, s.active, [Replay(d, crc)], d[ValidLength(d, crc)..] == Zeros(capacity - ValidLength(d, crc)), capacity, crc)
  {
    hide ReadHead, Frame, FrameAll, Resize, ValidLength, Replay, Open;
    var s := Open(files, capacity, crc);
    HighestExists(files);
    var last :| IsHighest(files, last);
    OpenAtHighest(files, last, capacity, crc);
    var d := s.files[s.active];
    var j := [Replay(d, crc)];
    ScanBoundary(d, crc);
    FrameAllLength(Replay(d, crc), crc);
    var n := ValidLength(d, crc);
    assert d == d[..n] + d[n..];
    assert SegmentHolds(s.files, s.active, j[0], d[n..] == Zeros(capacity - n), capacity, crc);
  }

  lemma OpenEmpty(capacity: nat, crc: Crc)
    ensures Represents(Open(map[], capacity, crc), 1, [[]], true, capacity, crc)
    ensures Open(map[], capacity, crc).files.Keys == {1}
  {}

  /** Closing and opening again with the same segment size changes nothing, as long as the active
      segment holds no empty entry. */
  lemma ReopenIsIdentity(s: Store, base: nat, j: Journal, capacity: nat, crc: Crc)
    requires Represents(s, base, j, true, capacity, crc) && AllStorable(Last(j))
    ensures Open(s.files, capacity, crc) == s
  {
    hide ReadHead, Frame, FrameAll;
    RepresentsConsistent(s, base, j, true, capacity, crc);
    var d := s.files[s.active];
    assert SegmentHolds(s.files, base + (|j| - 1), Last(j), true, capacity, crc);
    FrameAllLength(Last(j), crc);
    var n := capacity - |FrameAll(Last(j), crc)|;
    ReplayFrames(Last(j), crc, Zeros(n));
    ZerosEndScan(n, crc);
    OpenRepresents(s.files, capacity, crc);
    assert Resize(d, capacity) == d;
    assert s.files[s.active := d] == s.files;
  }

  // ---------- runs ----------

  datatype Op = Write(entry: Entry) | Reopen

  /** Runs from a directory; an entry that fits no segment is refused with ErrPayloadTooLarge. */
  ghost function Run(s: Store, ops: seq<Op>, capacity: nat, crc: Crc): (r: Store)
    requires Consistent(s, capacity)
    ensures Consistent(r, capacity)
    decreases |ops|
  {
    if ops == [] then s
    else
      var prev := Run(s, ops[..|ops| - 1], capacity, crc);
      match ops[|ops| - 1]
      case Write(e) => if Fits(e, capacity) then Append(prev, e, capacity, crc) else prev
      case Reopen => Open(prev.files, capacity, crc)
  }

  function JournalRun(j: Journal, ops: seq<Op>, capacity: nat): (r: Journal)
    requires j != []
    ensures r != []
    decreases |ops|
  {
    if ops == [] then j
    else
      var prev := JournalRun(j, ops[..|ops| - 1], capacity);
      match ops[|ops| - 1]
      case Write(e) => if Fits(e, capacity) then JournalAppend(prev, e, capacity) else prev
      case Reopen => prev
  }

  /** The entries that writes accepted, in order. */
  function Accepted(ops: seq<Op>, capacity: nat): seq<Entry>
    decreases |ops|
  {
    if ops == [] then []
    else
      var prev := Accepted(ops[..|ops| - 1], capacity);
      match ops[|ops| - 1]
      case Write(e) => if Fits(e, capacity) then prev + [e] else prev
      case Reopen => prev
  }

  /** Every `Reopen` finds an active segment without empty entries. */
  predicate ReopensClean(j: Journal, ops: seq<Op>, capacity: nat)
    requires j != []
    decreases |ops|
  {
    ops != [] ==>
      && ReopensClean(j, ops[..|ops| - 1], capacity)
      && (ops[|ops| - 1].Reopen? ==> AllStorable(Last(JournalRun(j, ops[..|ops| - 1], capacity))))
  }

  lemma {:induction false} RunRepresents(s: Store, base: nat, j: Journal, clean: bool, ops: seq<Op>, capacity: nat, crc: Crc)
    requires j != [] && Represents(s, base, j, clean, capacity, crc) && Consistent(s, capacity)
    requires if clean then ReopensClean(j, ops, capacity) else Reopen !in ops
    ensures Represents(Run(s, ops, capacity, crc), base, JournalRun(j, ops, capacity), clean, capacity, crc)
    ensures forall id | id < base :: id in Run(s, ops, capacity, crc).files <==> id in s.files
    ensures forall id <- s.files | id < base :: Run(s, ops, capacity, crc).files[id] == s.files[id]
    decreases |ops|
  {
    hide Represents, Append, JournalAppend, Open;
    if ops != [] {
      var before := ops[..|ops| - 1];
      RunRepresents(s, base, j, clean, before, capacity, crc);
      var prev, k := Run(s, before, capacity, crc), JournalRun(j, before, capacity);
      match ops[|ops| - 1]
      case Write(e) => if Fits(e, capacity) { AppendRepresents(prev, base, k, clean, e, capacity, crc); }
      case Reopen => ReopenIsIdentity(prev, base, k, capacity, crc);
    }
  }

  lemma {:induction false} JournalRunFlattens(ops: seq<Op>, capacity: nat)
    ensures Flatten(JournalRun([[]], ops, capacity)) == Accepted(ops, capacity)
    decreases |ops|
  {
    if ops == [] {
      assert Flatten([[]]) == Flatten([]) + [];
    } else {
      var before := ops[..|ops| - 1];
      JournalRunFlattens(before, capacity);
      var k := JournalRun([[]], before, capacity);
      if ops[|ops| - 1].Write? && Fits(ops[|ops| - 1].entry, capacity) {
        var e := ops[|ops| - 1].entry;
        var r := JournalAppend(k, e, capacity);
        if FrameLength(Last(k)) + EntrySize(e) > capacity {
          assert r[..|r| - 1] == k;
        } else {
          assert r[..|r| - 1] == k[..|k| - 1];
        }
      }
    }
  }

  // ---------- what replay returns after a run ----------

  function MapBeforeFirstEmpty(j: Journal): (r: seq<seq<Entry>>)
    ensures |r| == |j| && forall i | 0 <= i < |j| :: r[i] == BeforeFirstEmpty(j[i])
  {
    if j == [] then [] else MapBeforeFirstEmpty(j[..|j| - 1]) + [BeforeFirstEmpty(j[|j| - 1])]
  }

  /** Segments from `base` on replay, each, to the run before its first empty entry. */
  lemma {:induction false} SegmentsOfJournal(s: Store, base: nat, j: Journal, capacity: nat, n: nat, crc: Crc)
    requires Represents(s, base, j, true, capacity, crc) && n <= |j|
    requires forall i | 0 <= i < |j| :: Short(j[i])
    ensures Segments(s.files, base + n, crc) == Segments(s.files, base, crc) + MapBeforeFirstEmpty(j[..n])
  {
    hide Replay, ReadHead, FrameAll, Short;
    if n > 0 {
      SegmentsOfJournal(s, base, j, capacity, n - 1, crc);
      assert SegmentHolds(s.files, base + (n - 1), j[n - 1], true, capacity, crc);
      ReplaySegment(j[n - 1], capacity - |FrameAll(j[n - 1], crc)|, crc);
      assert j[..n][..n - 1] == j[..n - 1];
    }
  }

  lemma {:induction false} JournalShort(ops: seq<Op>, capacity: nat)
    requires forall op <- ops | op.Write? :: |op.entry.payload| < TWO32
    ensures forall i | 0 <= i < |JournalRun([[]], ops, capacity)| :: Short(JournalRun([[]], ops, capacity)[i])
    decreases |ops|
  {
    if ops != [] {
      var op := ops[|ops| - 1];
      assert op in ops;
      JournalShort(ops[..|ops| - 1], capacity);
    }
  }

  /** The general form: after any run from an empty directory, in which reopening never meets an
      empty entry in the active segment, each segment replays to what was written to it before
      its first empty payload. */
  lemma ReplayAfterRun(ops: seq<Op>, capacity: nat, crc: Crc)
    requires forall op <- ops | op.Write? :: |op.entry.payload| < TWO32
    requires ReopensClean([[]], ops, capacity)
    ensures Consistent(Open(map[], capacity, crc), capacity)
    ensures var s := Run(Open(map[], capacity, crc), ops, capacity, crc);
            Segments(s.files, s.active + 1, crc) == MapBeforeFirstEmpty(JournalRun([[]], ops, capacity))
  {
    hide Represents;
    OpenEmpty(capacity, crc);
    var s0 := Open(map[], capacity, crc);
    RunRepresents(s0, 1, [[]], true, ops, capacity, crc);
    JournalShort(ops, capacity);
    var s, j := Run(s0, ops, capacity, crc), JournalRun([[]], ops, capacity);
    SegmentsOfJournal(s, 1, j, capacity, |j|, crc);
    assert j[..|j|] == j;
    assert 1 + |j| == s.active + 1 by { assert s.active == 1 + |j| - 1 by { ActiveOf(s, 1, j, capacity, crc); } }
    assert 0 !in s.files;
    assert Segments(s.files, 1, crc) == Segments(s.files, 0, crc) + [];
  }

  lemma ActiveOf(s: Store, base: nat, j: Journal, capacity: nat, crc: Crc)
    requires Represents(s, base, j, true, capacity, crc)
    ensures s.active == base + |j| - 1
  {}

  lemma {:induction false} AllStorableRun(ops: seq<Op>, capacity: nat)
    requires AllStorable(Accepted(ops, capacity))
    ensures forall i | 0 <= i < |JournalRun([[]], ops, capacity)| :: AllStorable(JournalRun([[]], ops, capacity)[i])
    ensures ReopensClean([[]], ops, capacity)
    decreases |ops|
  {
    if ops != [] {
      var before := Accepted(ops[..|ops| - 1], capacity);
      assert Accepted(ops, capacity)[..|before|] == before;
      AllStorableRun(ops[..|ops| - 1], capacity);
    }
  }

  lemma {:induction false} SegmentsAreStorable(files: Files, n: nat, crc: Crc)
    ensures AllStorable(Flatten(Segments(files, n, crc)))
  {
    hide Replay;
    if n > 0 {
      SegmentsAreStorable(files, n - 1, crc);
      if n - 1 in files {
        ScanBoundary(files[n - 1], crc);
        var front := Segments(files, n - 1, crc);
        assert (front + [Replay(files[n - 1], crc)])[..|front|] == front;
      } else {
        assert Segments(files, n - 1, crc) + [] == Segments(files, n - 1, crc);
      }
    }
  }

  lemma {:induction false} AcceptedAreShort(ops: seq<Op>, capacity: nat)
    requires forall op <- ops | op.Write? :: |op.entry.payload| < TWO32
    ensures Short(Accepted(ops, capacity))
    decreases |ops|
  {
    if ops != [] {
      assert ops[|ops| - 1] in ops;
      AcceptedAreShort(ops[..|ops| - 1], capacity);
    }
  }

  lemma ReplayAccepted(ops: seq<Op>, capacity: nat, crc: Crc)
    requires AllStorable(Accepted(ops, capacity)) && forall op <- ops | op.Write? :: |op.entry.payload| < TWO32
    ensures Consistent(Open(map[], capacity, crc), capacity)
    ensures var s := Run(Open(map[], capacity, crc), ops, capacity, crc);
            Flatten(Segments(s.files, s.active + 1, crc)) == Accepted(ops, capacity)
  {
    hide Represents, Open, Run, JournalRun, Segments;
    AllStorableRun(ops, capacity);
    ReplayAfterRun(ops, capacity, crc);
    JournalRunFlattens(ops, capacity);
    var j := JournalRun([[]], ops, capacity);
    forall i | 0 <= i < |j| ensures MapBeforeFirstEmpty(j)[i] == j[i] {
      BeforeFirstEmptyIsAll(j[i]);
    }
    assert MapBeforeFirstEmpty(j) == j;
  }

  /** The law of the log, with its exact condition: through any number of rotations, closes and
      reopens, replaying the directory returns exactly the entries that writes accepted, in order,
      if and only if none of them was empty. */
  lemma WalReplaysEveryWrite(ops: seq<Op>, capacity: nat, crc: Crc)
    requires forall op <- ops | op.Write? :: |op.entry.payload| < TWO32
    ensures Consistent(Open(map[], capacity, crc), capacity)
    ensures var s := Run(Open(map[], capacity, crc), ops, capacity, crc);
            Flatten(Segments(s.files, s.active + 1, crc)) == Accepted(ops, capacity) <==>
            forall e <- Accepted(ops, capacity) :: e.payload != []
  {
    OpenEmpty(capacity, crc);
    hide Represents, Open, Run, Segments, Accepted;
    RepresentsConsistent(Open(map[], capacity, crc), 1, [[]], true, capacity, crc);
    AcceptedAreShort(ops, capacity);
    var s := Run(Open(map[], capacity, crc), ops, capacity, crc);
    SegmentsAreStorable(s.files, s.active + 1, crc);
    if forall e <- Accepted(ops, capacity) :: e.payload != [] {
      ReplayAccepted(ops, capacity, crc);
    }
  }

  // ---------- runs over any bytes ----------

  /** Every segment from `base` on begins with the frames of its list, and appending goes on behind
      the last; what follows the frames may be anything. */
  ghost predicate Begins(s: Store, base: nat, j: Journal, capacity: nat, crc: Crc) {
    && j != [] && s.active == base + |j| - 1 && Consistent(s, capacity) && s.offset == FrameLength(Last(j))
    && forall i {:trigger j[i]} | 0 <= i < |j| :: SegmentHolds(s.files, base + i, j[i], false, capacity, crc) && Short(j[i])
  }

  /** A run together with what each segment holds before the append offset: a write adds its entry,
      and a reopening goes on behind whatever the active segment then replays. */
  ghost function LiveRun(s: Store, j: Journal, ops: seq<Op>, capacity: nat, crc: Crc): (r: (Store, Journal))
    requires j != [] && Consistent(s, capacity)
    ensures r.1 != [] && r.0 == Run(s, ops, capacity, crc)
    decreases |ops|
  {
    if ops == [] then (s, j)
    else
      var prev := LiveRun(s, j, ops[..|ops| - 1], capacity, crc);
      match ops[|ops| - 1]
      case Write(e) =>
        if Fits(e, capacity) then (Append(prev.0, e, capacity, crc), JournalAppend(prev.1, e, capacity)) else prev
      case Reopen =>
        var n := Open(prev.0.files, capacity, crc);
        OpenConsistent(prev.0.files, capacity, crc);
        (n, prev.1[..|prev.1| - 1] + [Replay(n.files[n.active], crc)])
  }

  lemma OpenConsistent(files: Files, capacity: nat, crc: Crc)
    ensures Consistent(Open(files, capacity, crc), capacity)
  {
    hide Represents;
    if files == map[] {
      OpenEmpty(capacity, crc);
      RepresentsConsistent(Open(files, capacity, crc), 1, [[]], true, capacity, crc);
    } else {
      OpenRepresents(files, capacity, crc);
      var s := Open(files, capacity, crc);
      var d := s.files[s.active];
      RepresentsConsistent(s, s.active, [Replay(d, crc)], d[ValidLength(d, crc)..] == Zeros(capacity - ValidLength(d, crc)), capacity, crc);
    }
  }

  lemma BeginsInPlace(s: Store, base: nat, j: Journal, e: Entry, capacity: nat, crc: Crc)
    requires Begins(s, base, j, capacity, crc) && |e.payload| < TWO32 && s.offset + EntrySize(e) <= capacity
    ensures Begins(Append(s, e, capacity, crc), base, JournalAppend(j, e, capacity), capacity, crc)
  {
    hide Frame, ReadHead, FrameAll, Overwrite, Short, BeforeFirstEmpty, FrameLength;
    var last := |j| - 1;
    var r, k := Append(s, e, capacity, crc), JournalAppend(j, e, capacity);
    assert SegmentHolds(s.files, base + last, j[last], false, capacity, crc) && Short(j[last]);
    FrameLengthConcat(j[last], e);
    ShortMore(j[last], e);
    OverwriteExtends(s.files[s.active], j[last], e, false, crc);
    assert SegmentHolds(r.files, base + last, k[last], false, capacity, crc);
    forall i | 0 <= i < last ensures SegmentHolds(r.files, base + i, k[i], false, capacity, crc) && Short(k[i]) {
      assert SegmentHolds(s.files, base + i, j[i], false, capacity, crc) && k[i] == j[i];
    }
  }

  lemma BeginsRotating(s: Store, base: nat, j: Journal, e: Entry, capacity: nat, crc: Crc)
    requires Begins(s, base, j, capacity, crc) && |e.payload| < TWO32
    requires Fits(e, capacity) && s.offset + EntrySize(e) > capacity
    ensures Begins(Append(s, e, capacity, crc), base, JournalAppend(j, e, capacity), capacity, crc)
  {
    RotatedStore(s, j, e, capacity, crc);
    FirstEntryHolds(e, capacity, crc);
    hide *;
    BeginsBeside(s, base, j, e, Overwrite(Zeros(capacity), 0, Frame(e, crc)), capacity, crc);
  }

  lemma RotatedStore(s: Store, j: Journal, e: Entry, capacity: nat, crc: Crc)
    requires Consistent(s, capacity) && j != [] && s.offset == FrameLength(Last(j))
    requires Fits(e, capacity) && s.offset + EntrySize(e) > capacity
    ensures Append(s, e, capacity, crc)
         == Store(s.files[s.active + 1 := Overwrite(Zeros(capacity), 0, Frame(e, crc))], s.active + 1, EntrySize(e))
    ensures JournalAppend(j, e, capacity) == j + [[e]]
  {
    hide Frame, Overwrite;
    assert Resize([], capacity) == Zeros(capacity) && s.active + 1 !in s.files;
  }

  lemma BeginsBeside(s: Store, base: nat, j: Journal, e: Entry, d: seq<Byte>, capacity: nat, crc: Crc)
    requires Begins(s, base, j, capacity, crc) && |e.payload| < TWO32 && Fits(e, capacity)
    requires |d| == capacity && FrameAll([e], crc) <= d
    ensures Begins(Store(s.files[s.active + 1 := d], s.active + 1, EntrySize(e)), base, j + [[e]], capacity, crc)
  {
    assert Short([e]) && FrameLength([e]) == EntrySize(e);
    hide FrameAll, Short, FrameLength;
    var r, k := Store(s.files[s.active + 1 := d], s.active + 1, EntrySize(e)), j + [[e]];
    forall i | 0 <= i < |k| ensures SegmentHolds(r.files, base + i, k[i], false, capacity, crc) && Short(k[i]) {
      if i < |j| {
        assert SegmentHolds(s.files, base + i, j[i], false, capacity, crc);
      }
    }
  }

  lemma FirstEntryHolds(e: Entry, capacity: nat, crc: Crc)
    requires Fits(e, capacity)
    ensures FrameAll([e], crc) <= Overwrite(Zeros(capacity), 0, Frame(e, crc))
  {
    hide Frame, Overwrite;
    EmptyFrames(crc);
    assert FrameLength([]) == 0 && [] + [e] == [e];
    OverwriteExtends(Zeros(capacity), [], e, false, crc);
  }

  lemma BeginsAppend(s: Store, base: nat, j: Journal, e: Entry, capacity: nat, crc: Crc)
    requires Begins(s, base, j, capacity, crc) && Fits(e, capacity) && |e.payload| < TWO32
    ensures Begins(Append(s, e, capacity, crc), base, JournalAppend(j, e, capacity), capacity, crc)
    ensures var k := JournalAppend(j, e, capacity);
            |j| <= |k| && forall i | 0 <= i < |j| :: BeforeFirstEmpty(j[i]) <= BeforeFirstEmpty(k[i])
  {
    hide Short, BeforeFirstEmpty;
    ShortMore(Last(j), e);
    if s.offset + EntrySize(e) > capacity {
      BeginsRotating(s, base, j, e, capacity, crc);
    } else {
      BeginsInPlace(s, base, j, e, capacity, crc);
    }
    hide Begins, Append;
  }

  lemma ShortMore(es: seq<Entry>, e: Entry)
    ensures |e.payload| < TWO32 && Short(es) ==> Short(es + [e])
    ensures BeforeFirstEmpty(es) <= BeforeFirstEmpty(es + [e])
  {
    if es != [] {
      ShortMore(es[1..], e);
      assert (es + [e])[1..] == es[1..] + [e];
    }
  }

  /** What a list promises is at the start of every replay of bytes that begin with its frames. */
  lemma PromiseIsReplayed(es: seq<Entry>, d: seq<Byte>, crc: Crc)
    requires Short(es) && FrameAll(es, crc) <= d
    ensures BeforeFirstEmpty(es) <= Replay(d, crc)
  {
    PromiseIsPrefix(es);
    var kept := BeforeFirstEmpty(es);
    assert es == kept + es[|kept|..];
    FrameAllConcat(kept, es[|kept|..], crc);
    ReplayIsLongest(d, crc, kept);
  }

  lemma {:induction false} PromiseIsPrefix(es: seq<Entry>)
    requires Short(es)
    ensures BeforeFirstEmpty(es) <= es && AllStorable(BeforeFirstEmpty(es))
  {
    if es != [] {
      assert es[0] in es && forall e <- es[1..] :: e in es;
      PromiseIsPrefix(es[1..]);
    }
  }

  lemma BeginsReopen(s: Store, base: nat, j: Journal, capacity: nat, crc: Crc)
    requires Begins(s, base, j, capacity, crc)
    ensures var n := Open(s.files, capacity, crc);
            var es := Replay(n.files[s.active], crc);
            && n.active == s.active
            && Begins(n, base, j[..|j| - 1] + [es], capacity, crc)
            && BeforeFirstEmpty(Last(j)) <= es && BeforeFirstEmpty(es) == es
  {
    hide ReadHead, Frame, FrameAll, Replay, ValidLength, Open;
    var d, last := s.files[s.active], |j| - 1;
    assert SegmentHolds(s.files, base + last, j[last], false, capacity, crc) && Short(j[last]);
    OpenRepresents(s.files, capacity, crc);
    OpenConsistent(s.files, capacity, crc);
    assert Resize(d, capacity) == d;
    ScanBoundary(d, crc);
    PromiseIsReplayed(Last(j), d, crc);
    BeforeFirstEmptyIsAll(Replay(d, crc));
    var n, k := Open(s.files, capacity, crc), j[..last] + [Replay(d, crc)];
    assert n.files == s.files;
    assert SegmentHolds(n.files, base + last, k[last], false, capacity, crc);
    forall i | 0 <= i < |k| ensures SegmentHolds(n.files, base + i, k[i], false, capacity, crc) && Short(k[i]) {
      if i < last {
        assert SegmentHolds(s.files, base + i, j[i], false, capacity, crc) && Short(j[i]) && k[i] == j[i];
      }
    }
  }

  lemma {:induction false} SameLength(a: seq<Entry>, b: seq<Entry>)
    requires a <= b && FrameLength(a) == FrameLength(b)
    ensures a == b
  {
    if a != [] {
      SameLength(a[1..], b[1..]);
    }
  }

  /** Closing and opening again with the same segment size changes nothing exactly when the active
      segment holds no empty entry. */
  lemma ReopenIsIdentityIff(s: Store, base: nat, j: Journal, capacity: nat, crc: Crc)
    requires Represents(s, base, j, true, capacity, crc) && Short(Last(j))
    ensures Open(s.files, capacity, crc) == s <==> AllStorable(Last(j))
  {
    hide ReadHead, Frame, FrameAll, Open, ValidLength, Replay, AllStorable;
    var es, d := Last(j), s.files[s.active];
    assert SegmentHolds(s.files, base + (|j| - 1), es, true, capacity, crc);
    if AllStorable(es) {
      ReopenIsIdentity(s, base, j, capacity, crc);
    }
    if Open(s.files, capacity, crc) == s {
      OpenRepresents(s.files, capacity, crc);
      ReplaySegment(es, capacity - |FrameAll(es, crc)|, crc);
      PromiseIsPrefix(es);
      SameLength(BeforeFirstEmpty(es), es);
    }
  }

  lemma BelowUntouched(s: Store, base: nat, capacity: nat, crc: Crc)
    requires Consistent(s, capacity) && base <= s.active
    ensures var n := Open(s.files, capacity, crc);
            && (forall id | id < base :: id in n.files <==> id in s.files)
            && (forall id <- s.files | id < base :: n.files[id] == s.files[id])
  {
    hide Represents;
    OpenRepresents(s.files, capacity, crc);
  }

  /** Over any run, reopenings that meet empty or damaged entries included: each segment goes on
      beginning with the frames of its list, what a list promised it goes on promising, and the
      segments below are untouched. */
  lemma {:induction false} LiveRunBegins(s: Store, base: nat, j: Journal, ops: seq<Op>, capacity: nat, crc: Crc)
    requires Begins(s, base, j, capacity, crc) && forall op <- ops | op.Write? :: |op.entry.payload| < TWO32
    ensures var r := LiveRun(s, j, ops, capacity, crc);
            && Begins(r.0, base, r.1, capacity, crc) && |j| <= |r.1|
            && (forall i | 0 <= i < |j| :: BeforeFirstEmpty(j[i]) <= BeforeFirstEmpty(r.1[i]))
            && (forall id | id < base :: id in r.0.files <==> id in s.files)
            && (forall id <- s.files | id < base :: r.0.files[id] == s.files[id])
    decreases |ops|
  {
    hide Begins, Append, Open, BeforeFirstEmpty, Replay, Consistent, JournalAppend;
    BeginsConsistent(s, base, j, capacity, crc);
    if ops != [] {
      var before, op := ops[..|ops| - 1], ops[|ops| - 1];
      assert op in ops && forall o <- before :: o in ops;
      LiveRunBegins(s, base, j, before, capacity, crc);
      var m := LiveRun(s, j, before, capacity, crc);
      BeginsConsistent(m.0, base, m.1, capacity, crc);
      match op
      case Write(e) =>
        if Fits(e, capacity) {
          BeginsAppend(m.0, base, m.1, e, capacity, crc);
          AppendBelow(m.0, base, e, capacity, crc);
        }
      case Reopen =>
        BeginsReopen(m.0, base, m.1, capacity, crc);
        BelowUntouched(m.0, base, capacity, crc);
    }
  }

  lemma BeginsConsistent(s: Store, base: nat, j: Journal, capacity: nat, crc: Crc)
    requires Begins(s, base, j, capacity, crc)
    ensures j != [] && Consistent(s, capacity) && base <= s.active
  {}

  lemma AppendBelow(s: Store, base: nat, e: Entry, capacity: nat, crc: Crc)
    requires Consistent(s, capacity) && Fits(e, capacity) && base <= s.active
    ensures var n := Append(s, e, capacity, crc);
            && (forall id | id < base :: id in n.files <==> id in s.files)
            && (forall id <- s.files | id < base :: n.files[id] == s.files[id])
  {
    hide Frame, Overwrite, Resize;
  }

  /** The general law of replay, for any run from any state: each segment replays the entries of its
      list up to the first empty one, in order and possibly followed by stale ones, and whatever
      the list of a segment promised before the run is still replayed after it. */
  lemma PromisesAreReplayed(s: Store, base: nat, j: Journal, ops: seq<Op>, capacity: nat, crc: Crc, i: nat)
    requires Begins(s, base, j, capacity, crc) && forall op <- ops | op.Write? :: |op.entry.payload| < TWO32
    requires Consistent(s, capacity) && j != [] && i < |LiveRun(s, j, ops, capacity, crc).1|
    ensures var (n, k) := LiveRun(s, j, ops, capacity, crc);
            && n == Run(s, ops, capacity, crc) && base + i in n.files
            && BeforeFirstEmpty(k[i]) <= Replay(n.files[base + i], crc)
            && (i < |j| ==> BeforeFirstEmpty(j[i]) <= Replay(n.files[base + i], crc))
  {
    LiveRunBegins(s, base, j, ops, capacity, crc);
    hide LiveRun, Run, Replay, FrameAll, BeforeFirstEmpty;
    var (n, k) := LiveRun(s, j, ops, capacity, crc);
    assert SegmentHolds(n.files, base + i, k[i], false, capacity, crc) && Short(k[i]);
    PromiseIsReplayed(k[i], n.files[base + i], crc);
  }

  /** Opening any directory, damaged or not, is such a state: its list is what the scan keeps. */
  lemma OpenBegins(files: Files, capacity: nat, crc: Crc)
    ensures var s := Open(files, capacity, crc);
            && s.active in s.files
            && Begins(s, s.active, [if files == map[] then [] else Replay(s.files[s.active], crc)], capacity, crc)
  {
    hide ReadHead, Frame, FrameAll, Replay, ValidLength;
    OpenConsistent(files, capacity, crc);
    var s := Open(files, capacity, crc);
    if files == map[] {
      OpenEmpty(capacity, crc);
      assert SegmentHolds(s.files, 1, [[]][0], true, capacity, crc);
    } else {
      OpenRepresents(files, capacity, crc);
      var d := s.files[s.active];
      ScanBoundary(d, crc);
      assert SegmentHolds(s.files, s.active, [Replay(d, crc)][0], d[ValidLength(d, crc)..] == Zeros(capacity - ValidLength(d, crc)), capacity, crc);
    }
  }

  lemma SessionReplays(s0: Store, base: nat, j0: Journal, clean: bool, ops: seq<Op>, capacity: nat, crc: Crc, i: nat)
    requires j0 != [] && Represents(s0, base, j0, clean, capacity, crc) && Consistent(s0, capacity)
    requires Reopen !in ops && forall op <- ops :: Storable(op.entry)
    requires forall k | 0 <= k < |j0| :: AllStorable(j0[k])
    requires i < |JournalRun(j0, ops, capacity)|
    ensures var s := Run(s0, ops, capacity, crc);
            var j := JournalRun(j0, ops, capacity);
            && base + i in s.files
            && j[i] <= Replay(s.files[base + i], crc)
            && (clean || i > 0 ==> Replay(s.files[base + i], crc) == j[i])
  {
    hide ReadHead, Frame, FrameAll, Run, JournalRun, Replay;
    NoReopens(j0, ops, capacity);
    RunRepresents(s0, base, j0, clean, ops, capacity, crc);
    var s, j := Run(s0, ops, capacity, crc), JournalRun(j0, ops, capacity);
    JournalStorable(j0, ops, capacity);
    assert SegmentHolds(s.files, base + i, j[i], clean || i > 0, capacity, crc);
    ReplayIsLongest(s.files[base + i], crc, j[i]);
    if clean || i > 0 {
      var n := capacity - |FrameAll(j[i], crc)|;
      ReplayFrames(j[i], crc, Zeros(n));
      ZerosEndScan(n, crc);
      NothingReplays(Zeros(n), crc);
      assert j[i] + [] == j[i];
    }
  }

  lemma NothingReplays(d: seq<Byte>, crc: Crc)
    requires ReadHead(d, crc) == None
    ensures Replay(d, crc) == []
  {}

  /** Resuming over arbitrary bytes: after opening any directory and writing any entries the
      scanners can read, every older segment is as it was, and each segment from the resumed one
      on replays its old readable entries and then the new ones, possibly followed by more. The
      resumed one replays exactly these when its unreadable tail was zero; later ones always do. */
  lemma ResumedSessionReplays(files: Files, s0: Store, ops: seq<Op>, capacity: nat, crc: Crc, i: nat)
    requires files != map[] && s0 == Open(files, capacity, crc) && Consistent(s0, capacity)
    requires Reopen !in ops && forall op <- ops :: Storable(op.entry)
    requires i < |JournalRun([Replay(s0.files[s0.active], crc)], ops, capacity)|
    ensures var d := s0.files[s0.active];
            var s := Run(s0, ops, capacity, crc);
            var j := JournalRun([Replay(d, crc)], ops, capacity);
            && IsHighest(files, s0.active) && d == Resize(files[s0.active], capacity)
            && (forall id <- files | id < s0.active :: id in s.files && s.files[id] == files[id])
            && s0.active + i in s.files
            && j[i] <= Replay(s.files[s0.active + i], crc)
            && (i > 0 || d[ValidLength(d, crc)..] == Zeros(capacity - ValidLength(d, crc)) ==>
                  Replay(s.files[s0.active + i], crc) == j[i])
  {
    hide ReadHead, Frame, FrameAll, Open, Run, JournalRun, Replay, ValidLength, Represents;
    OpenRepresents(files, capacity, crc);
    var d := s0.files[s0.active];
    var clean := d[ValidLength(d, crc)..] == Zeros(capacity - ValidLength(d, crc));
    var j0 := [Replay(d, crc)];
    ScanBoundary(d, crc);
    NoReopens(j0, ops, capacity);
    RunRepresents(s0, s0.active, j0, clean, ops, capacity, crc);
    SessionReplays(s0, s0.active, j0, clean, ops, capacity, crc, i);
  }

  lemma {:induction false} NoReopens(j: Journal, ops: seq<Op>, capacity: nat)
    requires j != [] && Reopen !in ops
    ensures ReopensClean(j, ops, capacity)
    decreases |ops|
  {
    if ops != [] {
      assert ops[|ops| - 1] in ops;
      NoReopens(j, ops[..|ops| - 1], capacity);
    }
  }

  lemma {:induction false} JournalStorable(j: Journal, ops: seq<Op>, capacity: nat)
    requires j != [] && forall i | 0 <= i < |j| :: AllStorable(j[i])
    requires forall op <- ops | op.Write? :: Storable(op.entry)
    ensures forall i | 0 <= i < |JournalRun(j, ops, capacity)| :: AllStorable(JournalRun(j, ops, capacity)[i])
    decreases |ops|
  {
    if ops != [] {
      assert ops[|ops| - 1] in ops;
      JournalStorable(j, ops[..|ops| - 1], capacity);
    }
  }
}
