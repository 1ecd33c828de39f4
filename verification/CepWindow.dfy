/** The ring buffers of the complex-event rules (pkg/cep/cep.go): per-bucket counts and per-bucket
    maxima, against the full history of everything ever added. Times are nanoseconds since 1970;
    counts are unbounded and latencies are reals. */
module CepWindow {

  const MINUTE := 60_000_000_000

  // ---------- counts ----------

  datatype Hit = Hit(epoch: nat, amount: int)

  datatype Bucket = Bucket(epoch: int, count: int)

  function Blank(n: nat): seq<Bucket> {
    seq(n, i => Bucket(0, 0))
  }

  /** Adding to the ring: a bucket holding another epoch is overwritten. */
  function Add(ring: seq<Bucket>, h: Hit): (r: seq<Bucket>)
    requires ring != []
    ensures |r| == |ring|
  {
    var idx := h.epoch % |ring|;
    var b := if ring[idx].epoch != h.epoch then Bucket(h.epoch, 0) else ring[idx];
    ring[idx := Bucket(b.epoch, b.count + h.amount)]
  }

  predicate Live(epoch: int, n: nat, cur: int) {
    cur - n + 1 <= epoch <= cur
  }

  function Share(b: Bucket, n: nat, cur: int): int {
    if Live(b.epoch, n, cur) then b.count else 0
  }

  function SumOf(buckets: seq<Bucket>, n: nat, cur: int): int {
    if buckets == [] then 0
    else SumOf(buckets[..|buckets| - 1], n, cur) + Share(buckets[|buckets| - 1], n, cur)
  }

  function Replay(hits: seq<Hit>, n: nat): (r: seq<Bucket>)
    requires n > 0
    ensures |r| == n
  {
    if hits == [] then Blank(n) else Add(Replay(hits[..|hits| - 1], n), hits[|hits| - 1])
  }

  /** What the window means: the total over all hits ever added in the last n epochs. */
  function Total(hits: seq<Hit>, n: nat, cur: int): int {
    if hits == [] then 0
    else
      var h := hits[|hits| - 1];
      Total(hits[..|hits| - 1], n, cur) + if Live(h.epoch, n, cur) then h.amount else 0
  }

  predicate Ordered(hits: seq<Hit>) {
    forall i, j | 0 <= i < j < |hits| :: hits[i].epoch <= hits[j].epoch
  }

  /** Each bucket is untouched, or holds an epoch of its own residue no later than `last`. */
  predicate RingOk(ring: seq<Bucket>, last: int) {
    forall i | 0 <= i < |ring| ::
      ring[i] == Bucket(0, 0) || (0 <= ring[i].epoch <= last && ring[i].epoch % |ring| == i)
  }

  lemma SameResidue(a: nat, b: nat, n: nat)
    requires n > 0 && a < b && a % n == b % n
    ensures a <= b - n
  {
    assert a == a / n * n + a % n && b == b / n * n + b % n;
    assert b / n - 1 >= a / n;
    assert (b / n - 1) * n >= a / n * n;
  }

  lemma {:induction false} SumUpdate(buckets: seq<Bucket>, k: nat, b: Bucket, n: nat, cur: int)
    requires k < |buckets|
    ensures SumOf(buckets[k := b], n, cur) == SumOf(buckets, n, cur) - Share(buckets[k], n, cur) + Share(b, n, cur)
  {
    var last := |buckets| - 1;
    if k == last {
      assert buckets[k := b][..last] == buckets[..last];
    } else {
      SumUpdate(buckets[..last], k, b, n, cur);
      assert buckets[k := b][..last] == buckets[..last][k := b];
    }
  }

  lemma {:induction false} BlankSum(k: nat, n: nat, cur: int)
    ensures SumOf(Blank(k), n, cur) == 0
  {
    if k > 0 {
      BlankSum(k - 1, n, cur);
      assert Blank(k)[..k - 1] == Blank(k - 1);
    }
  }

  /** One addition at the end of time moves the sum by exactly the amount added: an overwritten
      bucket had already left the window. */
  lemma AddMovesSum(ring: seq<Bucket>, last: int, h: Hit, cur: int)
    requires ring != [] && RingOk(ring, last) && last <= h.epoch <= cur
    ensures RingOk(Add(ring, h), h.epoch)
    ensures SumOf(Add(ring, h), |ring|, cur) ==
            SumOf(ring, |ring|, cur) + if Live(h.epoch, |ring|, cur) then h.amount else 0
  {
    var n := |ring|;
    var idx := h.epoch % n;
    var b := ring[idx];
    SumUpdate(ring, idx, Add(ring, h)[idx], n, cur);
    if b.epoch != h.epoch && b != Bucket(0, 0) {
      SameResidue(b.epoch, h.epoch, n);
    }
  }

  /** The ring's sum is the total over the full history, for every history in epoch order. */
  lemma {:induction false} SumIsTotal(hits: seq<Hit>, n: nat, cur: int)
    requires n > 0 && Ordered(hits) && (hits != [] ==> hits[|hits| - 1].epoch <= cur)
    ensures SumOf(Replay(hits, n), n, cur) == Total(hits, n, cur)
    ensures RingOk(Replay(hits, n), if hits == [] then 0 else hits[|hits| - 1].epoch)
  {
    hide Add, SumOf, RingOk;
    if hits == [] {
      BlankSum(n, n, cur);
      BlankOk(n);
    } else {
      var before, h := hits[..|hits| - 1], hits[|hits| - 1];
      SumIsTotal(before, n, cur);
      AddMovesSum(Replay(before, n), if before == [] then 0 else before[|before| - 1].epoch, h, cur);
    }
  }

  lemma BlankOk(n: nat)
    ensures RingOk(Blank(n), 0)
  {}

  class SlidingWindow {
    const buckets: array<Bucket>
    const bucketSize: int
    const window: int

    ghost predicate Valid() {
      bucketSize > 0 && window >= bucketSize && buckets.Length == window / bucketSize && buckets.Length > 0
    }

    constructor (window: int, bucketSize: int)
      ensures Valid() && fresh(buckets) && buckets[..] == Blank(buckets.Length)
      ensures this.bucketSize == if bucketSize <= 0 then MINUTE else bucketSize
      ensures this.window == if window < this.bucketSize then this.bucketSize else window
    {
      var size := if bucketSize <= 0 then MINUTE else bucketSize;
      var span := if window < size then size else window;
      AtLeastOne(span, size);
      this.bucketSize, this.window := size, span;
      buckets := new Bucket[span / size](_ => Bucket(0, 0));
    }

    method AddAt(now: nat, amount: int)
      requires Valid()
      modifies buckets
      ensures buckets[..] == Add(old(buckets[..]), Hit(now / bucketSize, amount))
    {
      var epoch := now / bucketSize;
      var idx := epoch % buckets.Length;
      if buckets[idx].epoch != epoch {
        buckets[idx] := Bucket(epoch, 0);
      }
      buckets[idx] := Bucket(buckets[idx].epoch, buckets[idx].count + amount);
    }

    method Sum(now: nat) returns (total: int)
      requires Valid()
      ensures total == SumOf(buckets[..], buckets.Length, now / bucketSize)
    {
      var currentEpoch := now / bucketSize;
      var minEpoch := currentEpoch - buckets.Length + 1;
      total := 0;
      var i := 0;
      while i < buckets.Length
        invariant 0 <= i <= buckets.Length
        invariant total == SumOf(buckets[..i], buckets.Length, currentEpoch)
      {
        var b := buckets[i];
        if b.epoch >= minEpoch && b.epoch <= currentEpoch {
          total := total + b.count;
        }
        assert buckets[..i + 1][..i] == buckets[..i];
        i := i + 1;
      }
      assert buckets[..i] == buckets[..];
    }
  }

  lemma AtLeastOne(window: int, size: int)
    requires window >= size > 0
    ensures window / size >= 1
  {
    assert window == window / size * size + window % size;
  }

  // ---------- maxima ----------

  datatype Sample = Sample(epoch: nat, ms: real)

  datatype Peak = Peak(epoch: int, maxMS: real)

  function Max(a: real, b: real): real {
    if b > a then b else a
  }

  function BlankPeaks(n: nat): seq<Peak> {
    seq(n, i => Peak(0, 0.0))
  }

  function Track(ring: seq<Peak>, s: Sample): (r: seq<Peak>)
    requires ring != []
    ensures |r| == |ring|
  {
    var idx := s.epoch % |ring|;
    ring[idx := if ring[idx].epoch != s.epoch then Peak(s.epoch, s.ms) else Peak(s.epoch, Max(ring[idx].maxMS, s.ms))]
  }

  function Height(p: Peak, n: nat, cur: int): real {
    if Live(p.epoch, n, cur) then Max(0.0, p.maxMS) else 0.0
  }

  function MaxOf(peaks: seq<Peak>, n: nat, cur: int): (r: real)
    ensures r >= 0.0
  {
    if peaks == [] then 0.0
    else Max(MaxOf(peaks[..|peaks| - 1], n, cur), Height(peaks[|peaks| - 1], n, cur))
  }

  function ReplayPeaks(samples: seq<Sample>, n: nat): (r: seq<Peak>)
    requires n > 0
    ensures |r| == n
  {
    if samples == [] then BlankPeaks(n) else Track(ReplayPeaks(samples[..|samples| - 1], n), samples[|samples| - 1])
  }

  /** The largest sample of the last n epochs, and never less than zero. */
  function Highest(samples: seq<Sample>, n: nat, cur: int): real {
    if samples == [] then 0.0
    else
      var s := samples[|samples| - 1];
      var before := Highest(samples[..|samples| - 1], n, cur);
      if Live(s.epoch, n, cur) then Max(before, s.ms) else before
  }

  /** Highest is the least upper bound of zero and the samples in the window. */
  lemma {:induction false} HighestIsTheMaximum(samples: seq<Sample>, n: nat, cur: int)
    ensures Highest(samples, n, cur) >= 0.0
    ensures forall s <- samples | Live(s.epoch, n, cur) :: s.ms <= Highest(samples, n, cur)
    ensures Highest(samples, n, cur) == 0.0 || exists s <- samples :: Live(s.epoch, n, cur) && s.ms == Highest(samples, n, cur)
  {
    if samples != [] {
      var before, s := samples[..|samples| - 1], samples[|samples| - 1];
      HighestIsTheMaximum(before, n, cur);
      assert samples == before + [s];
    }
  }

  predicate OrderedSamples(samples: seq<Sample>) {
    forall i, j | 0 <= i < j < |samples| :: samples[i].epoch <= samples[j].epoch
  }

  predicate PeaksOk(ring: seq<Peak>, last: int) {
    forall i | 0 <= i < |ring| ::
      ring[i] == Peak(0, 0.0) || (0 <= ring[i].epoch <= last && ring[i].epoch % |ring| == i)
  }

  lemma {:induction false} MaxUpdate(peaks: seq<Peak>, k: nat, p: Peak, x: real, n: nat, cur: int)
    requires k < |peaks| && Height(p, n, cur) == Max(Height(peaks[k], n, cur), x)
    ensures MaxOf(peaks[k := p], n, cur) == Max(MaxOf(peaks, n, cur), x)
  {
    var last := |peaks| - 1;
    if k == last {
      assert peaks[k := p][..last] == peaks[..last];
    } else {
      MaxUpdate(peaks[..last], k, p, x, n, cur);
      assert peaks[k := p][..last] == peaks[..last][k := p];
    }
  }

  lemma {:induction false} BlankMax(k: nat, n: nat, cur: int)
    ensures MaxOf(BlankPeaks(k), n, cur) == 0.0
  {
    if k > 0 {
      BlankMax(k - 1, n, cur);
      assert BlankPeaks(k)[..k - 1] == BlankPeaks(k - 1);
    }
  }

  lemma TrackMovesMax(ring: seq<Peak>, last: int, s: Sample, cur: int)
    requires ring != [] && PeaksOk(ring, last) && last <= s.epoch <= cur
    ensures PeaksOk(Track(ring, s), s.epoch)
    ensures MaxOf(Track(ring, s), |ring|, cur) ==
            if Live(s.epoch, |ring|, cur) then Max(MaxOf(ring, |ring|, cur), s.ms) else MaxOf(ring, |ring|, cur)
  {
    var n := |ring|;
    var idx := s.epoch % n;
    if ring[idx].epoch != s.epoch && ring[idx] != Peak(0, 0.0) {
      SameResidue(ring[idx].epoch, s.epoch, n);
    }
    MaxUpdate(ring, idx, Track(ring, s)[idx], if Live(s.epoch, n, cur) then s.ms else 0.0, n, cur);
  }

  /** The tracker's peak is the true maximum over the full history. */
  lemma {:induction false} MaxIsHighest(samples: seq<Sample>, n: nat, cur: int)
    requires n > 0 && OrderedSamples(samples) && (samples != [] ==> samples[|samples| - 1].epoch <= cur)
    ensures MaxOf(ReplayPeaks(samples, n), n, cur) == Highest(samples, n, cur)
    ensures PeaksOk(ReplayPeaks(samples, n), if samples == [] then 0 else samples[|samples| - 1].epoch)
  {
    hide Track, MaxOf, PeaksOk;
    if samples == [] {
      BlankMax(n, n, cur);
      BlankPeaksOk(n);
    } else {
      var before, s := samples[..|samples| - 1], samples[|samples| - 1];
      MaxIsHighest(before, n, cur);
      TrackMovesMax(ReplayPeaks(before, n), if before == [] then 0 else before[|before| - 1].epoch, s, cur);
    }
  }

  lemma BlankPeaksOk(n: nat)
    ensures PeaksOk(BlankPeaks(n), 0)
  {}

  class LatencyTracker {
    const buckets: array<Peak>
    const bucketSize: int
    const window: int

    ghost predicate Valid() {
      bucketSize > 0 && window >= bucketSize && buckets.Length == window / bucketSize && buckets.Length > 0
    }

    constructor (window: int, bucketSize: int)
      ensures Valid() && fresh(buckets) && buckets[..] == BlankPeaks(buckets.Length)
      ensures this.bucketSize == if bucketSize <= 0 then MINUTE else bucketSize
      ensures this.window == if window < this.bucketSize then this.bucketSize else window
    {
      var size := if bucketSize <= 0 then MINUTE else bucketSize;
      var span := if window < size then size else window;
      AtLeastOne(span, size);
      this.bucketSize, this.window := size, span;
      buckets := new Peak[span / size](_ => Peak(0, 0.0));
    }

    method Observe(now: nat, ms: real)
      requires Valid()
      modifies buckets
      ensures buckets[..] == Track(old(buckets[..]), Sample(now / bucketSize, ms))
    {
      var epoch := now / bucketSize;
      var idx := epoch % buckets.Length;
      if buckets[idx].epoch != epoch {
        buckets[idx] := Peak(epoch, ms);
      } else if ms > buckets[idx].maxMS {
        buckets[idx] := Peak(epoch, ms);
      }
    }

    method MaxIn(now: nat) returns (m: real)
      requires Valid()
      ensures m == MaxOf(buckets[..], buckets.Length, now / bucketSize)
    {
      var currentEpoch := now / bucketSize;
      var minEpoch := currentEpoch - buckets.Length + 1;
      m := 0.0;
      var i := 0;
      while i < buckets.Length
        invariant 0 <= i <= buckets.Length
        invariant m == MaxOf(buckets[..i], buckets.Length, currentEpoch)
      {
        var b := buckets[i];
        if b.epoch >= minEpoch && b.epoch <= currentEpoch && b.maxMS > m {
          m := b.maxMS;
        }
        assert buckets[..i + 1][..i] == buckets[..i];
        i := i + 1;
      }
      assert buckets[..i] == buckets[..];
    }
  }
}
