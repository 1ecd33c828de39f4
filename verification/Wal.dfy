/** The WAL object of pkg/wal/wal.go. A segment file is an array of bytes; the active one is
    mapped shared, so `mmapData` is that file's array. The directory maps ids to files. */
module Wal {
  import opened Optional
  import opened WalFormat
  import opened WalLog

  const MAX_SEGMENT_SIZE: nat := 64 * 1024 * 1024

  datatype WriteResult = Written | ErrClosed | ErrPayloadTooLarge

  /** What the callback of `Walk` returns: nil, io.EOF, or another error. */
  datatype Verdict = Next | Eof | Error

  /** The callback, as a function of everything it has been handed so far. */
  type Callback = seq<Entry> -> Verdict

  // ---------- specification of Walk ----------

  /** Hand over `es` until the callback does not return nil. */
  function Deliver(es: seq<Entry>, sent: seq<Entry>, fn: Callback): (r: (seq<Entry>, Verdict)) {
    if es == [] then (sent, Next)
    else
      var sent' := sent + [es[0]];
      var v := fn(sent');
      if v == Next then Deliver(es[1..], sent', fn) else (sent', v)
  }

  /** Segment by segment; io.EOF abandons only its segment. */
  function Visit(segments: seq<seq<Entry>>, sent: seq<Entry>, fn: Callback): (r: (seq<Entry>, Verdict)) {
    if segments == [] then (sent, Next)
    else
      var (sent', v) := Visit(segments[..|segments| - 1], sent, fn);
      if v == Error then (sent', Error)
      else
        var (sent'', v') := Deliver(segments[|segments| - 1], sent', fn);
        (sent'', if v' == Eof then Next else v')
  }

  lemma {:induction false} DeliverAll(es: seq<Entry>, sent: seq<Entry>, fn: Callback)
    requires forall x :: fn(x) == Next
    ensures Deliver(es, sent, fn) == (sent + es, Next)
  {
    if es == [] {
      assert sent + es == sent;
    } else {
      DeliverAll(es[1..], sent + [es[0]], fn);
      assert sent + es == sent + [es[0]] + es[1..];
    }
  }

  /** A callback that never fails receives every entry of every segment, in order. */
  lemma {:induction false} VisitAll(segments: seq<seq<Entry>>, sent: seq<Entry>, fn: Callback)
    requires forall x :: fn(x) == Next
    ensures Visit(segments, sent, fn) == (sent + Flatten(segments), Next)
  {
    if segments == [] {
      assert sent + Flatten(segments) == sent;
    } else {
      var n := |segments| - 1;
      VisitAll(segments[..n], sent, fn);
      DeliverAll(segments[n], sent + Flatten(segments[..n]), fn);
      assert sent + Flatten(segments) == sent + Flatten(segments[..n]) + segments[n];
    }
  }

  // ---------- the scanners ----------

  method ScanValidOffset(data: seq<Byte>, crc: Crc) returns (off: nat)
    ensures off == ValidLength(data, crc)
  {
    hide ReadHead;
    off := 0;
    assert data[0..] == data;
    while off + LOG_HEADER_SIZE <= |data|
      invariant off <= |data|
      invariant off + ValidLength(data[off..], crc) == ValidLength(data, crc)
      decreases |data| - off
    {
      var entry := EntryAt(data, off, crc);
      if entry.None? {
        return;
      }
      assert data[off..][EntrySize(entry.value)..] == data[off + EntrySize(entry.value)..];
      off := off + EntrySize(entry.value);
    }
  }

  /** The header checks both scanners make at one offset. */
  method EntryAt(data: seq<Byte>, off: nat, crc: Crc) returns (entry: Option<Entry>)
    requires off + LOG_HEADER_SIZE <= |data|
    ensures entry == ReadHead(data[off..], crc)
    ensures entry.Some? ==> off + EntrySize(entry.value) <= |data|
  {
    var d := data[off..];
    assert d[..4] == data[off..off + 4] && d[4..8] == data[off + 4..off + 8];
    assert d[8..12] == data[off + 8..off + 12] && d[12..20] == data[off + 12..off + 20];
    if GetLE(data[off..off + 4]) != LOG_MAGIC {
      return None;
    }
    var length := GetLE(data[off + 4..off + 8]);
    if length == 0 || off + LOG_HEADER_SIZE + length > |data| {
      return None;
    }
    var payload := data[off + LOG_HEADER_SIZE..off + LOG_HEADER_SIZE + length];
    assert d[LOG_HEADER_SIZE..LOG_HEADER_SIZE + length] == payload;
    if crc(payload) != GetLE(data[off + 8..off + 12]) {
      return None;
    }
    PutGetLE(d[12..20]);
    Widths();
    return Some(Entry(FromUint64(GetLE(data[off + 12..off + 20])), payload));
  }

  method WalkSegment(data: seq<Byte>, crc: Crc, sent: seq<Entry>, fn: Callback) returns (out: seq<Entry>, verdict: Verdict)
    ensures (out, verdict) == Deliver(Replay(data, crc), sent, fn)
  {
    hide ReadHead;
    var off := 0;
    out := sent;
    assert data[0..] == data;
    while off + LOG_HEADER_SIZE <= |data|
      invariant off <= |data|
      invariant Deliver(Replay(data[off..], crc), out, fn) == Deliver(Replay(data, crc), sent, fn)
      decreases |data| - off
    {
      var entry := EntryAt(data, off, crc);
      if entry.None? {
        return out, Next;
      }
      ghost var rest := data[off..][EntrySize(entry.value)..];
      assert rest == data[off + EntrySize(entry.value)..];
      assert Replay(data[off..], crc)[1..] == Replay(rest, crc);
      out := out + [entry.value];
      var v := fn(out);
      if v != Next {
        return out, v;
      }
      off := off + EntrySize(entry.value);
    }
    return out, Next;
  }

  // ---------- little-endian stores ----------

  method PutWord(a: array<Byte>, off: nat, v: nat, n: nat)
    requires off + n <= a.Length
    modifies a
    ensures a[..] == Overwrite(old(a[..]), off, PutLE(v, n))
  {
    var i, w := 0, v;
    ghost var d: seq<Byte>, done: seq<Byte> := a[..], [];
    while i < n
      invariant 0 <= i <= n && |done| == i
      invariant a[..] == Overwrite(d, off, done)
      invariant done + PutLE(w, n - i) == PutLE(v, n)
    {
      a[off + i] := w % 256;
      assert done + PutLE(w, n - i) == done + [w % 256] + PutLE(w / 256, n - i - 1);
      done := done + [w % 256];
      w := w / 256;
      i := i + 1;
    }
    assert done + [] == done;
  }

  method CopyBytes(a: array<Byte>, off: nat, bytes: seq<Byte>)
    requires off + |bytes| <= a.Length
    modifies a
    ensures a[..] == Overwrite(old(a[..]), off, bytes)
  {
    ghost var d := a[..];
    for i := 0 to |bytes|
      invariant a[..] == Overwrite(d, off, bytes[..i])
    {
      a[off + i] := bytes[i];
      assert bytes[..i + 1] == bytes[..i] + [bytes[i]];
    }
    assert bytes[..|bytes|] == bytes;
  }

  lemma OverwriteTwice(d: seq<Byte>, off: nat, a: seq<Byte>, b: seq<Byte>)
    requires off + |a| + |b| <= |d|
    ensures Overwrite(Overwrite(d, off, a), off + |a|, b) == Overwrite(d, off, a + b)
  {}

  // ---------- the directory ----------

  class Directory {
    var files: map<nat, array<Byte>>

    constructor ()
      ensures files == map[]
    {
      files := map[];
    }

    ghost predicate Valid()
      reads this
    {
      forall a <- files, b <- files | a != b :: files[a] != files[b]
    }

    function Contents(): Files
      reads this, files.Values
    {
      map id | id in files :: files[id][..]
    }
  }

  /** The ids of a directory's segments in ascending order. */
  method DiscoverSegments(names: set<nat>) returns (ids: seq<nat>)
    ensures forall i, j | 0 <= i < j < |ids| :: ids[i] < ids[j]
    ensures forall id :: id in ids <==> id in names
    ensures ids == [] <==> names == {}
    ensures ids != [] ==> forall id <- names :: id <= ids[|ids| - 1]
  {
    ids := [];
    var left := names;
    while left != {}
      invariant forall id :: id in names <==> id in ids || id in left
      invariant forall i, b | 0 <= i < |ids| && b in left :: ids[i] < b
      invariant forall i, j | 0 <= i < j < |ids| :: ids[i] < ids[j]
      decreases left
    {
      LeastExists(left);
      assert exists id :: id in left && forall k <- left :: id <= k by {
        var x :| IsLeast(x, left);
        assert x in left;
      }
      var least: nat :| least in left && forall k <- left :: least <= k;
      ids := ids + [least];
      left := left - {least};
    }
    forall id <- names ensures ids != [] && id <= ids[|ids| - 1] {
      var m :| 0 <= m < |ids| && ids[m] == id;
    }
    if ids != [] {
      assert ids[0] in names;
    }
  }

  ghost predicate IsLeast(id: nat, ids: set<nat>) {
    id in ids && forall k <- ids :: id <= k
  }

  lemma {:induction false} LeastExists(ids: set<nat>)
    requires ids != {}
    ensures exists id :: IsLeast(id, ids)
    decreases |ids|
  {
    var x :| x in ids;
    var rest := ids - {x};
    assert forall k <- ids :: k == x || k in rest;
    if rest == {} {
      assert IsLeast(x, ids);
    } else {
      LeastExists(rest);
      var y :| IsLeast(y, rest);
      assert IsLeast(if x <= y then x else y, ids);
    }
  }

  // ---------- the log ----------

  class WAL {
    const crc: Crc
    const maxSegmentBytes: nat
    const dir: Directory
    var mmapData: array<Byte>
    var writeOffset: nat
    var segmentID: nat
    var closed: bool

    ghost predicate Valid()
      reads this, dir
    {
      && dir.Valid()
      && segmentID in dir.files && mmapData == dir.files[segmentID]
      && mmapData.Length == maxSegmentBytes && writeOffset <= maxSegmentBytes
      && forall id <- dir.files :: id <= segmentID
    }

    /** The store this object and its directory hold. */
    ghost function Abs(): Store
      reads this, dir, dir.files.Values
    {
      Store(dir.Contents(), segmentID, writeOffset)
    }

    /** NewWALWithOptions; a segment size that is not positive means the default. */
    constructor (dir: Directory, maxSegmentBytes: int, crc: Crc)
      requires dir.Valid()
      modifies dir
      ensures Valid() && !closed && this.dir == dir && this.crc == crc
      ensures this.maxSegmentBytes == if maxSegmentBytes <= 0 then MAX_SEGMENT_SIZE else maxSegmentBytes
      ensures Abs() == Open(old(dir.Contents()), this.maxSegmentBytes, crc)
    {
      this.crc := crc;
      this.dir := dir;
      this.maxSegmentBytes := if maxSegmentBytes <= 0 then MAX_SEGMENT_SIZE else maxSegmentBytes;
      this.mmapData := new Byte[0];
      this.writeOffset := 0;
      this.segmentID := 0;
      this.closed := false;
      new;
      hide Valid, Abs, Open, Directory.Contents, Directory.Valid;
      Recover();
    }

    /** Start segment 1 of an empty directory, or resume the highest segment. */
    method Recover()
      requires dir.Valid() && segmentID == 0
      modifies this`mmapData, this`writeOffset, this`segmentID, dir
      ensures Valid() && fresh(mmapData)
      ensures Abs() == Open(old(dir.Contents()), maxSegmentBytes, crc)
    {
      hide Open, OpenSegment, IsHighest;
      ghost var files := dir.Contents();
      var segments := DiscoverSegments(dir.files.Keys);
      if |segments| == 0 {
        OpenNothing(files, maxSegmentBytes, crc);
        OpenFile(segmentID + 1);
      } else {
        Resume(segments[|segments| - 1]);
      }
    }

    method Resume(last: nat)
      requires dir.Valid() && last in dir.files && forall id <- dir.files :: id <= last
      modifies this`mmapData, this`writeOffset, this`segmentID, dir
      ensures Valid() && fresh(mmapData)
      ensures Abs() == Open(old(dir.Contents()), maxSegmentBytes, crc)
    {
      hide Open, ValidLength, Resize;
      ghost var files := dir.Contents();
      OpenAtHighest(files, last, maxSegmentBytes, crc);
      OpenFile(last);
      ghost var segment := Abs();
      assert segment.files[last] == mmapData[..];
      var off := ScanValidOffset(mmapData[..], crc);
      writeOffset := off;
      assert Abs() == segment.(offset := off);
    }

    /** openSegment: open or create the file, make it `maxSegmentBytes` long, map it. */
    method OpenFile(id: nat)
      requires dir.Valid() && forall k <- dir.files :: k <= id
      modifies this`mmapData, this`writeOffset, this`segmentID, dir
      ensures Valid() && fresh(mmapData)
      ensures Abs() == OpenSegment(old(dir.Contents()), id, maxSegmentBytes)
    {
      ghost var was := dir.Contents();
      var bytes := if id in dir.files then dir.files[id][..] else [];
      assert id in dir.files ==> bytes == was[id];
      var resized := Resize(bytes, maxSegmentBytes);
      var data := new Byte[maxSegmentBytes](i requires 0 <= i < |resized| => resized[i]);
      assert data[..] == resized;
      dir.files := dir.files[id := data];
      mmapData, writeOffset, segmentID := data, 0, id;
      assert dir.Contents() == was[id := resized];
    }

    method Write(payload: seq<Byte>, now: Int64) returns (r: WriteResult)
      requires Valid()
      modifies this`mmapData, this`writeOffset, this`segmentID, dir, mmapData
      ensures Valid() && Consistent(old(Abs()), maxSegmentBytes)
      ensures mmapData == old(mmapData) || fresh(mmapData)
      ensures r == if closed then ErrClosed
                   else if !Fits(Entry(now, payload), maxSegmentBytes) then ErrPayloadTooLarge
                   else Written
      ensures Abs() == if r.Written? then Append(old(Abs()), Entry(now, payload), maxSegmentBytes, crc) else old(Abs())
    {
      hide PutLE, Resize;
      ghost var before := Abs();
      assert before.files[segmentID] == mmapData[..];
      if closed {
        return ErrClosed;
      }
      var entrySize := LOG_HEADER_SIZE + |payload|;
      if entrySize > maxSegmentBytes {
        return ErrPayloadTooLarge;
      }
      if writeOffset + entrySize > maxSegmentBytes {
        OpenFile(segmentID + 1);
      }
      ghost var ready := Abs();
      ghost var e := Entry(now, payload);
      assert ready == if before.offset + EntrySize(e) > maxSegmentBytes then Rotate(before, maxSegmentBytes) else before;
      StoreEntry(now, payload);
      writeOffset := writeOffset + entrySize;
      assert dir.Contents() == ready.files[segmentID := mmapData[..]];
      return Written;
    }

    /** The four header words and the payload, stored at the write offset. */
    method StoreEntry(now: Int64, payload: seq<Byte>)
      requires Valid() && writeOffset + LOG_HEADER_SIZE + |payload| <= maxSegmentBytes
      modifies mmapData
      ensures mmapData[..] == Overwrite(old(mmapData[..]), writeOffset, Frame(Entry(now, payload), crc))
    {
      hide PutLE;
      var off := writeOffset;
      ghost var d := mmapData[..];
      var magic, length, sum, ts := PutLE(LOG_MAGIC, 4), PutLE(|payload| % TWO32, 4), PutLE(crc(payload), 4), PutLE(ToUint64(now), 8);
      PutWord(mmapData, off, LOG_MAGIC, 4);
      PutWord(mmapData, off + 4, |payload| % TWO32, 4);
      OverwriteTwice(d, off, magic, length);
      PutWord(mmapData, off + 8, crc(payload), 4);
      OverwriteTwice(d, off, magic + length, sum);
      PutWord(mmapData, off + 12, ToUint64(now), 8);
      OverwriteTwice(d, off, magic + length + sum, ts);
      CopyBytes(mmapData, off + LOG_HEADER_SIZE, payload);
      OverwriteTwice(d, off, magic + length + sum + ts, payload);
    }

    /** Close: idempotent; nothing in the files changes. */
    method Close()
      requires Valid()
      modifies this`closed
      ensures Valid() && closed && Abs() == old(Abs())
    {
      closed := true;
    }

    /** Walk: every readable entry of every segment, oldest segment first. */
    method Walk(fn: Callback) returns (out: seq<Entry>, verdict: Verdict)
      requires Valid()
      ensures (out, verdict) == Visit(Segments(dir.Contents(), segmentID + 1, crc), [], fn)
    {
      out, verdict := WalkFiles(dir.Contents(), segmentID, crc, fn);
    }
  }

  method WalkFiles(files: Files, ghost highest: nat, crc: Crc, fn: Callback) returns (out: seq<Entry>, verdict: Verdict)
    requires forall id <- files :: id <= highest
    ensures (out, verdict) == Visit(Segments(files, highest + 1, crc), [], fn)
  {
    hide Deliver, Visit, Segments, Replay;
    var ids := DiscoverSegments(files.Keys);
    out, verdict := [], Next;
    VisitNone(files, crc, fn);
    var i := 0;
    while i < |ids|
      invariant 0 <= i <= |ids|
      invariant verdict == Next && Visit(Segments(files, Bound(ids, i), crc), [], fn) == (out, Next)
    {
      var id := ids[i];
      WalkStep(files, Bound(ids, i), id, out, crc, fn);
      out, verdict := WalkSegment(files[id], crc, out, fn);
      if verdict == Eof {
        verdict := Next;
      }
      if verdict == Error {
        VisitStopsAt(files, id + 1, highest + 1, crc, fn);
        return;
      }
      i := i + 1;
    }
    NoMoreSegments(ids, files.Keys, highest);
    SegmentsGap(files, Bound(ids, i), highest + 1, crc);
  }

  /** One past the id of the last segment visited. */
  ghost function Bound(ids: seq<nat>, i: nat): nat
    requires i <= |ids|
  {
    if i == 0 then 0 else ids[i - 1] + 1
  }

  lemma NoMoreSegments(ids: seq<nat>, names: set<nat>, highest: nat)
    requires forall i, j | 0 <= i < j < |ids| :: ids[i] < ids[j]
    requires forall id :: id in ids <==> id in names
    requires forall id <- names :: id <= highest
    ensures Bound(ids, |ids|) <= highest + 1
    ensures forall k <- names :: k < Bound(ids, |ids|)
  {
    forall k <- names ensures k < Bound(ids, |ids|) {
      var m :| 0 <= m < |ids| && ids[m] == k;
    }
    if ids != [] {
      assert ids[|ids| - 1] in names;
    }
  }

  lemma VisitNone(files: Files, crc: Crc, fn: Callback)
    ensures Visit(Segments(files, 0, crc), [], fn) == ([], Next)
  {}

  lemma VisitNext(before: seq<seq<Entry>>, segment: seq<Entry>, sent: seq<Entry>, fn: Callback)
    requires Visit(before, [], fn) == (sent, Next)
    ensures var (out, v) := Deliver(segment, sent, fn);
            Visit(before + [segment], [], fn) == (out, if v == Eof then Next else v)
  {}

  /** Walking one more segment. */
  lemma WalkStep(files: Files, bound: nat, id: nat, sent: seq<Entry>, crc: Crc, fn: Callback)
    requires bound <= id && id in files && forall k <- files :: k < bound || id <= k
    requires Visit(Segments(files, bound, crc), [], fn) == (sent, Next)
    ensures var (out, v) := Deliver(Replay(files[id], crc), sent, fn);
            Visit(Segments(files, id + 1, crc), [], fn) == (out, if v == Eof then Next else v)
  {
    hide *;
    SegmentsNext(files, bound, id, crc);
    VisitNext(Segments(files, bound, crc), Replay(files[id], crc), sent, fn);
  }

  lemma VisitStopsAt(files: Files, m: nat, n: nat, crc: Crc, fn: Callback)
    requires m <= n && Visit(Segments(files, m, crc), [], fn).1 == Error
    ensures Visit(Segments(files, n, crc), [], fn) == Visit(Segments(files, m, crc), [], fn)
  {
    SegmentsPrefix(files, m, n, crc);
    VisitStops(Segments(files, n, crc), Segments(files, m, crc), fn);
  }

  lemma {:induction false} SegmentsPrefix(files: Files, m: nat, n: nat, crc: Crc)
    requires m <= n
    ensures Segments(files, m, crc) <= Segments(files, n, crc)
  {
    if m < n {
      SegmentsPrefix(files, m, n - 1, crc);
    }
  }

  /** An error ends the walk: later segments change nothing. */
  lemma {:induction false} VisitStops(segments: seq<seq<Entry>>, prefix: seq<seq<Entry>>, fn: Callback)
    ensures prefix <= segments && Visit(prefix, [], fn).1 == Error ==> Visit(segments, [], fn) == Visit(prefix, [], fn)
  {
    if prefix <= segments && |prefix| < |segments| {
      VisitStops(segments[..|segments| - 1], prefix, fn);
    } else if prefix <= segments {
      assert prefix == segments;
    }
  }
}
