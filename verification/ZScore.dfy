/** The users of the exponentially weighted moments: the sampler's tracker (pkg/sampling/ewma.go),
    the in-process predictor (pkg/mlruntime/zscore.go) and the standalone anomaly detector.
    A score z = (x - mean) / std is given by its signed square, so that no root is taken. */
module ZScore {
  import opened Optional
  import opened Ewma

  function SquareOf(x: real): real {
    Scaled(x, x)
  }

  /** The square of z, with the sign of z. */
  function Score(x: real, s: Series): real
    requires s.vari != 0.0
  {
    var z2 := SquareOf(x - s.mean) / s.vari;
    if x >= s.mean then z2 else -z2
  }

  /** std < 1e-9: too flat to divide by. */
  predicate Flat(s: Series) {
    s.vari < 0.000_000_000_000_000_001
  }

  /** |z| >= threshold, for a positive threshold. */
  predicate Beyond(x: real, s: Series, threshold: real) {
    SquareOf(x - s.mean) >= SquareOf(threshold) * s.vari
  }

  function At(view: map<string, Series>, key: string): Series {
    if key in view then view[key] else Empty
  }

  // ---------- the predictor and the detector ----------

  datatype Options = Options(warmup: int, threshold: real, alpha: real)

  function WithDefaults(o: Options): Options {
    Options(
      if o.warmup <= 0 then 50 else o.warmup,
      if o.threshold <= 0.0 then 3.0 else o.threshold,
      if o.alpha <= 0.0 || o.alpha > 1.0 then 0.05 else o.alpha)
  }

  predicate Ready(o: Options) {
    o.warmup > 0 && o.threshold > 0.0 && IsWeight(o.alpha)
  }

  datatype Sample = Sample(tenant: string, metric: string, value: real, at: int)

  function Key(s: Sample): string {
    s.tenant + "::" + s.metric
  }

  datatype Decision = Decision(anomaly: bool, score: real, baseline: real, threshold: real)

  datatype Anomaly = Anomaly(tenant: string, metric: string, value: real, score: real, mean: real, threshold: real, at: int)

  function Predict(view: map<string, Series>, s: Sample, o: Options): (map<string, Series>, Decision) {
    var e := Update(At(view, Key(s)), s.value, o.alpha);
    var quiet := Decision(false, 0.0, e.mean, o.threshold);
    (view[Key(s) := e],
     if e.count < o.warmup || Flat(e) then quiet
     else quiet.(score := Score(s.value, e), anomaly := Beyond(s.value, e, o.threshold)))
  }

  function Detect(view: map<string, Series>, s: Sample, o: Options): (map<string, Series>, Option<Anomaly>) {
    var e := Update(At(view, Key(s)), s.value, o.alpha);
    (view[Key(s) := e],
     if e.count < o.warmup then None
     else if Flat(e) then None
     else if !Beyond(s.value, e, o.threshold) then None
     else Some(Anomaly(s.tenant, s.metric, s.value, Score(s.value, e), e.mean, o.threshold, s.at)))
  }

  class SerieStats {
    ghost const key: string
    var mean: real
    var vari: real
    var count: nat

    constructor (ghost key: string)
      ensures this.key == key && Value() == Empty
    {
      this.key, mean, vari, count := key, 0.0, 0.0, 0;
    }

    function Value(): Series
      reads this
    {
      Series(mean, vari, count)
    }

    method Take(x: real, alpha: real)
      modifies this
      ensures Value() == Update(old(Value()), x, alpha)
    {
      var prev := mean;
      if count == 0 {
        mean := x;
      } else {
        var diff := x - prev;
        mean := prev + alpha * diff;
        vari := (1.0 - alpha) * (vari + alpha * diff * diff);
      }
      count := count + 1;
    }
  }

  /** The per-series entries, found by key. */
  class Entries {
    var stats: map<string, SerieStats>

    constructor ()
      ensures Valid() && View() == map[]
    {
      stats := map[];
    }

    ghost predicate Valid()
      reads this
    {
      forall k <- stats :: stats[k].key == k
    }

    ghost function View(): map<string, Series>
      reads this, stats.Values
    {
      map k <- stats :: stats[k].Value()
    }

    method Take(key: string, x: real, alpha: real) returns (e: SerieStats)
      requires Valid()
      modifies this, stats.Values
      ensures Valid() && fresh(stats.Values - old(stats.Values))
      ensures e in stats.Values && e.Value() == Update(At(old(View()), key), x, alpha)
      ensures View() == old(View())[key := e.Value()]
    {
      hide Update;
      if key !in stats {
        e := new SerieStats(key);
        stats := stats[key := e];
      }
      e := stats[key];
      e.Take(x, alpha);
    }
  }

  class ZScorePredictor {
    const opts: Options
    const entries: Entries

    constructor (o: Options)
      ensures opts == WithDefaults(o) && fresh(entries) && entries.Valid() && entries.View() == map[]
    {
      opts := WithDefaults(o);
      entries := new Entries();
    }

    method Observe(s: Sample) returns (d: Decision)
      requires entries.Valid() && Ready(opts)
      modifies entries, entries.stats.Values
      ensures entries.Valid() && fresh(entries.stats.Values - old(entries.stats.Values))
      ensures (entries.View(), d) == Predict(old(entries.View()), s, opts)
    {
      hide Update, Score, Beyond;
      var e := entries.Take(Key(s), s.value, opts.alpha);
      var now := e.Value();
      d := Decision(false, 0.0, now.mean, opts.threshold);
      if now.count < opts.warmup || Flat(now) {
        return d;
      }
      d := d.(score := Score(s.value, now));
      if Beyond(s.value, now, opts.threshold) {
        d := d.(anomaly := true);
      }
    }
  }

  class Detector {
    const opts: Options
    const entries: Entries

    constructor (o: Options)
      ensures opts == WithDefaults(o) && fresh(entries) && entries.Valid() && entries.View() == map[]
    {
      opts := WithDefaults(o);
      entries := new Entries();
    }

    method Observe(s: Sample) returns (a: Option<Anomaly>)
      requires entries.Valid() && Ready(opts)
      modifies entries, entries.stats.Values
      ensures entries.Valid() && fresh(entries.stats.Values - old(entries.stats.Values))
      ensures (entries.View(), a) == Detect(old(entries.View()), s, opts)
    {
      hide Update, Score, Beyond;
      var e := entries.Take(Key(s), s.value, opts.alpha);
      var now := e.Value();
      if now.count < opts.warmup {
        return None;
      }
      if Flat(now) {
        return None;
      }
      if !Beyond(s.value, now, opts.threshold) {
        return None;
      }
      return Some(Anomaly(s.tenant, s.metric, s.value, Score(s.value, now), now.mean, opts.threshold, s.at));
    }
  }

  // ---------- runs ----------

  function PredictRun(samples: seq<Sample>, o: Options): (r: (map<string, Series>, seq<Decision>))
    ensures |r.1| == |samples|
  {
    if samples == [] then (map[], [])
    else
      var before := PredictRun(samples[..|samples| - 1], o);
      var p := Predict(before.0, samples[|samples| - 1], o);
      (p.0, before.1 + [p.1])
  }

  function DetectRun(samples: seq<Sample>, o: Options): (r: (map<string, Series>, seq<Option<Anomaly>>))
    ensures |r.1| == |samples|
  {
    if samples == [] then (map[], [])
    else
      var before := DetectRun(samples[..|samples| - 1], o);
      var p := Detect(before.0, samples[|samples| - 1], o);
      (p.0, before.1 + [p.1])
  }

  /** The values of one series, in order. */
  function ValuesOf(samples: seq<Sample>, key: string): seq<real> {
    if samples == [] then []
    else
      var s := samples[|samples| - 1];
      ValuesOf(samples[..|samples| - 1], key) + if Key(s) == key then [s.value] else []
  }

  /** The two implementations agree on every run: the same state, an anomaly on the same samples,
      with the same score and mean. */
  lemma {:induction false} PredictorAndDetectorAgree(samples: seq<Sample>, o: Options)
    ensures PredictRun(samples, o).0 == DetectRun(samples, o).0
    ensures forall k | 0 <= k < |samples| ::
              var d, a := PredictRun(samples, o).1[k], DetectRun(samples, o).1[k];
              && (d.anomaly <==> a.Some?)
              && (a.Some? ==> a.value == Anomaly(samples[k].tenant, samples[k].metric, samples[k].value,
                                                 d.score, d.baseline, d.threshold, samples[k].at))
  {
    hide Update, Score, Beyond;
    if samples != [] {
      PredictorAndDetectorAgree(samples[..|samples| - 1], o);
    }
  }

  /** Each series' state is the fold of its own samples, whatever came in between. */
  lemma {:induction false} RunIsFold(samples: seq<Sample>, o: Options, key: string)
    ensures At(PredictRun(samples, o).0, key) == Fold(ValuesOf(samples, key), o.alpha)
  {
    hide Update, Score, Beyond;
    if samples != [] {
      var before, s := samples[..|samples| - 1], samples[|samples| - 1];
      RunIsFold(before, o, key);
      var xs := ValuesOf(before, key);
      if Key(s) == key {
        assert (xs + [s.value])[..|xs|] == xs;
      } else {
        assert xs + [] == xs;
      }
    }
  }

  /** After every run each series' state is the weighted mean and variance of its own samples. */
  lemma RunIsClosedForm(samples: seq<Sample>, o: Options, key: string)
    requires ValuesOf(samples, key) != []
    ensures var xs := ValuesOf(samples, key);
            At(PredictRun(samples, o).0, key) == Series(WeightedMean(xs, o.alpha), WeightedVariance(xs, o.alpha), |xs|)
  {
    hide WeightedMean, WeightedVariance, PredictRun, ValuesOf, Fold;
    RunIsFold(samples, o, key);
    FoldIsClosedForm(ValuesOf(samples, key), o.alpha);
  }

  // ---------- when an anomaly can be reported ----------

  lemma {:induction false} FoldIsSane(xs: seq<real>, a: real)
    requires IsWeight(a)
    ensures Fold(xs, a).vari >= 0.0 && (Fold(xs, a).count == 0 ==> Fold(xs, a).vari == 0.0)
  {
    if xs != [] {
      FoldIsSane(xs[..|xs| - 1], a);
      VarianceStays(Fold(xs[..|xs| - 1], a), xs[|xs| - 1], a);
    }
  }

  lemma BeyondNeedsRoom(s: Series, x: real, o: Options)
    requires Ready(o) && s.vari >= 0.0 && (s.count == 0 ==> s.vari == 0.0)
    requires var n := Update(s, x, o.alpha); !Flat(n) && Beyond(x, n, o.threshold)
    ensures SquareOf(o.threshold) * o.alpha <= 1.0 - o.alpha
  {
    var n := Update(s, x, o.alpha);
    NewestIsClose(s, x, o.alpha);
    hide Update;
    Room(o.alpha, SquareOf(o.threshold), n.vari, SquareOf(x - n.mean));
  }

  lemma Room(a: real, t: real, v: real, g: real)
    requires a > 0.0 && v > 0.0 && g >= t * v && a * g <= (1.0 - a) * v
    ensures t * a <= 1.0 - a
  {
    NonNegative(a, g - t * v);
    assert a * (g - t * v) == a * g - (t * a) * v;
    assert (t * a - (1.0 - a)) * v == (t * a) * v - (1.0 - a) * v;
    if t * a > 1.0 - a {
      Positive(t * a - (1.0 - a), v);
    }
  }

  lemma Positive(x: real, y: real)
    requires x > 0.0 && y > 0.0
    ensures x * y > 0.0
  {}

  lemma {:induction false} AlarmNeedsRoom(samples: seq<Sample>, o: Options)
    requires Ready(o) && exists d <- PredictRun(samples, o).1 :: d.anomaly
    ensures SquareOf(o.threshold) * o.alpha <= 1.0 - o.alpha
  {
    hide Update, Score, Beyond, Flat, SquareOf, Ready;
    var before, s := samples[..|samples| - 1], samples[|samples| - 1];
    var d :| d in PredictRun(samples, o).1 && d.anomaly;
    if d in PredictRun(before, o).1 {
      AlarmNeedsRoom(before, o);
    } else {
      RunIsFold(before, o, Key(s));
      OptionsAreReady(o);
      FoldIsSane(ValuesOf(before, Key(s)), o.alpha);
      BeyondNeedsRoom(At(PredictRun(before, o).0, Key(s)), s.value, o);
    }
  }

  lemma OptionsAreReady(o: Options)
    requires Ready(o)
    ensures IsWeight(o.alpha)
  {}

  function Silence(n: nat): (r: seq<Sample>)
    ensures |r| == n
  {
    seq(n, i => Sample("t", "m", 0.0, 0))
  }

  lemma {:induction false} SilentValues(n: nat)
    ensures ValuesOf(Silence(n), "t::m") == Zeros(n)
  {
    if n > 0 {
      SilentValues(n - 1);
      assert Silence(n)[..n - 1] == Silence(n - 1);
      assert Zeros(n) == Zeros(n - 1) + [0.0];
      assert Key(Sample("t", "m", 0.0, 0)) == "t::m";
    }
  }

  /** How tall the spike must be to clear the flatness floor. */
  lemma Spike(a: real) returns (x: real)
    requires 0.0 < a < 1.0
    ensures x >= 1.0 && (1.0 - a) * (a * x) == 1.0
  {
    var p := a * (1.0 - a);
    Positive(a, 1.0 - a);
    NonNegative(a, a);
    x := 1.0 / p;
    assert p * x == 1.0;
    assert (1.0 - a) * (a * x) == p * x;
  }

  lemma SpikeIsBeyond(a: real, t: real, x: real)
    requires 0.0 < a < 1.0 && t * a <= 1.0 - a && x >= 1.0 && (1.0 - a) * (a * x) == 1.0
    ensures (1.0 - a) * (a * x * x) == x
    ensures SquareOf(x - a * x) >= t * x
  {
    var r := 1.0 - a;
    assert r * (a * x * x) == (r * (a * x)) * x;
    assert x - a * x == r * x;
    assert a * ((r * x) * (r * x)) == (r * (a * x)) * (r * x);
    NonNegative(r - t * a, x);
    assert (r - t * a) * x == r * x - a * (t * x);
    if (r * x) * (r * x) < t * x {
      Positive(a, t * x - (r * x) * (r * x));
    }
  }

  lemma SpikeState(n: nat, x: real, a: real)
    requires n > 0
    ensures Update(Series(0.0, 0.0, n), x, a) == Series(a * x, (1.0 - a) * (a * x * x), n + 1)
  {}

  lemma SpikeAlarms(o: Options) returns (samples: seq<Sample>)
    requires Ready(o) && SquareOf(o.threshold) * o.alpha <= 1.0 - o.alpha
    ensures exists d <- PredictRun(samples, o).1 :: d.anomaly
  {
    var a := o.alpha;
    BelowOne(o);
    var x := Spike(a);
    var s := Sample("t", "m", x, 0);
    samples := Silence(o.warmup) + [s];
    SilentValues(o.warmup);
    RunIsFold(Silence(o.warmup), o, "t::m");
    SilenceIsFlat(o.warmup, a);
    SpikeState(o.warmup, x, a);
    SpikeIsBeyond(a, SquareOf(o.threshold), x);
    assert samples[..o.warmup] == Silence(o.warmup);
    hide Update, SquareOf, Silence;
    var n := Update(Series(0.0, 0.0, o.warmup), x, a);
    assert Beyond(x, n, o.threshold) && !Flat(n);
    assert Key(s) == "t::m";
    var d := PredictRun(samples, o).1[o.warmup];
    assert d.anomaly;
    assert d in PredictRun(samples, o).1;
  }

  lemma BelowOne(o: Options)
    requires Ready(o) && SquareOf(o.threshold) * o.alpha <= 1.0 - o.alpha
    ensures 0.0 < o.alpha < 1.0
  {
    SquarePositive(o.threshold);
    hide SquareOf;
    Positive(SquareOf(o.threshold), o.alpha);
  }

  lemma SquarePositive(x: real)
    requires x > 0.0
    ensures SquareOf(x) > 0.0
  {
    ScaledPositive(x, x);
  }

  lemma ScaledPositive(x: real, y: real)
    requires x > 0.0 && y > 0.0
    ensures Scaled(x, y) > 0.0
  {}

  /** Over all histories, an anomaly can be reported if and only if threshold^2 * a <= 1 - a. */
  lemma AnomalyIffRoom(o: Options)
    requires Ready(o)
    ensures (exists samples :: exists d <- PredictRun(samples, o).1 :: d.anomaly) <==>
            SquareOf(o.threshold) * o.alpha <= 1.0 - o.alpha
  {
    hide PredictRun, SquareOf;
    if SquareOf(o.threshold) * o.alpha <= 1.0 - o.alpha {
      var samples := SpikeAlarms(o);
    }
    if samples :| exists d <- PredictRun(samples, o).1 :: d.anomaly {
      AlarmNeedsRoom(samples, o);
    }
  }

  /** With a above a tenth, a threshold of three (the default) never fires. */
  lemma ThreeSigmaNeverFires(samples: seq<Sample>, o: Options)
    requires Ready(o) && o.threshold == 3.0 && o.alpha > 0.1
    ensures forall d <- PredictRun(samples, o).1 :: !d.anomaly
    ensures forall a <- DetectRun(samples, o).1 :: a == None
  {
    PredictorAndDetectorAgree(samples, o);
    if exists d <- PredictRun(samples, o).1 :: d.anomaly {
      AlarmNeedsRoom(samples, o);
    }
  }

  // ---------- the sampler's tracker ----------

  /** Three maps over the same keys as one. */
  function Joined(mean: map<string, real>, vari: map<string, real>, seen: map<string, nat>): map<string, Series>
    requires mean.Keys == vari.Keys == seen.Keys
  {
    map k <- mean :: Series(mean[k], vari[k], seen[k])
  }

  lemma JoinedPut(mean: map<string, real>, vari: map<string, real>, seen: map<string, nat>, k: string, s: Series)
    requires mean.Keys == vari.Keys == seen.Keys
    ensures Joined(mean[k := s.mean], vari[k := s.vari], seen[k := s.count]) == Joined(mean, vari, seen)[k := s]
  {}

  lemma JoinedAt(mean: map<string, real>, vari: map<string, real>, seen: map<string, nat>, k: string)
    requires mean.Keys == vari.Keys == seen.Keys
    ensures Joined(mean, vari, seen).Keys == mean.Keys
    ensures At(Joined(mean, vari, seen), k) == if k in mean then Series(mean[k], vari[k], seen[k]) else Empty
  {}

  /** A key the tracker has never seen is seeded; any other is moved, whatever its count. */
  function Tracked(view: map<string, Series>, key: string, x: real, a: real): Series {
    if key in view then Moved(view[key], x, a) else Update(Empty, x, a)
  }

  class EwmaTracker {
    const alpha: real
    var mean: map<string, real>
    var vari: map<string, real>
    var seen: map<string, nat>

    constructor (alpha: real)
      ensures Valid() && View() == map[]
      ensures this.alpha == if alpha <= 0.0 || alpha > 1.0 then 0.05 else alpha
    {
      this.alpha := if alpha <= 0.0 || alpha > 1.0 then 0.05 else alpha;
      mean, vari, seen := map[], map[], map[];
    }

    /** The three maps describe the same keys. */
    ghost predicate Valid()
      reads this
    {
      IsWeight(alpha) && mean.Keys == vari.Keys == seen.Keys
    }

    function View(): map<string, Series>
      requires Valid()
      reads this
    {
      Joined(mean, vari, seen)
    }

    /** One sample of one key: for a key without samples or with some, that is the update of its
        series. (A restored entry with mean and variance but no samples is moved, not seeded.) */
    method Observe(key: string, x: real)
      requires Valid()
      modifies this
      ensures Valid() && View() == old(View())[key := Tracked(old(View()), key, x, alpha)]
      ensures key !in old(View()) || old(View())[key].count > 0 ==> View()[key] == Update(At(old(View()), key), x, alpha)
    {
      ghost var n := Tracked(View(), key, x, alpha);
      JoinedPut(mean, vari, seen, key, n);
      JoinedAt(mean, vari, seen, key);
      hide Joined;
      if key !in mean {
        mean, vari, seen := mean[key := x], vari[key := 0.0], seen[key := 1];
        return;
      }
      var prev, v := mean[key], vari[key];
      assert View()[key] == At(View(), key) == Series(prev, v, seen[key]);
      var diff := x - prev;
      var m2, v2 := prev + alpha * diff, (1.0 - alpha) * (v + alpha * diff * diff);
      assert n == Series(m2, v2, seen[key] + 1);
      mean, vari, seen := mean[key := m2], vari[key := v2], seen[key := seen[key] + 1];
    }

    /** The signed square of the score, or zero while there are too few samples or no spread. */
    method ZScore(key: string, x: real) returns (z: real)
      requires Valid()
      ensures var s := At(View(), key); z == if s.count < 30 || Flat(s) then 0.0 else Score(x, s)
    {
      if key !in seen || seen[key] < 30 {
        return 0.0;
      }
      var s := Series(mean[key], vari[key], seen[key]);
      return if Flat(s) then 0.0 else Score(x, s);
    }

    method Snapshot() returns (out: map<string, Series>)
      requires Valid()
      ensures out == View()
    {
      out := map[];
      var left := mean.Keys;
      while left != {}
        invariant left <= mean.Keys
        invariant out == map k | k in View() && k !in left :: View()[k]
        decreases left
      {
        var k :| k in left;
        out := out[k := Series(mean[k], vari[k], seen[k])];
        left := left - {k};
      }
      assert out == View();
    }

    method Put(k: string, s: Series)
      requires Valid()
      modifies this
      ensures Valid() && View() == old(View())[k := s]
    {
      JoinedPut(mean, vari, seen, k, s);
      hide Joined;
      mean, vari, seen := mean[k := s.mean], vari[k := s.vari], seen[k := s.count];
    }

    /** Restoring a snapshot puts every entry of it back, and leaves the other keys alone. */
    method Restore(state: map<string, Series>)
      requires Valid()
      modifies this
      ensures Valid() && View() == old(View()) + state
    {
      hide Joined;
      var left := state.Keys;
      ghost var was, put := View(), map[];
      assert was + map[] == was;
      while left != {}
        invariant left <= state.Keys && Valid()
        invariant put.Keys == state.Keys - left && forall k <- put :: put[k] == state[k]
        invariant View() == was + put
        decreases left
      {
        var k :| k in left;
        assert k in state;
        PutLate(was, put, k, state[k]);
        Put(k, state[k]);
        left, put := left - {k}, put[k := state[k]];
      }
      assert put == state;
    }
  }

  lemma PutLate(was: map<string, Series>, put: map<string, Series>, k: string, s: Series)
    ensures (was + put)[k := s] == was + put[k := s]
  {}
}
