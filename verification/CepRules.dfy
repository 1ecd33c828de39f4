/** The two edge-triggered rules (pkg/cep/cep.go): a rule emits exactly on the rising edges of the
    true windowed value of a service, and services do not affect one another. */
module CepRules {
  import opened Optional
  import opened CepWindow

  datatype Kind = Metric | Log | Trace | Profile

  datatype Signal = Signal(kind: Kind, attributes: map<string, string>)

  function ServiceName(s: Signal): string {
    if "service.name" in s.attributes && s.attributes["service.name"] != "" then s.attributes["service.name"]
    else if "service_name" in s.attributes && s.attributes["service_name"] != "" then s.attributes["service_name"]
    else "unknown"
  }

  function Span(window: int): (r: int)
    ensures r >= MINUTE
  {
    if window < MINUTE then MINUTE else window
  }

  function Buckets(window: int): (r: nat)
    ensures r > 0
  {
    AtLeastOne(Span(window), MINUTE);
    Span(window) / MINUTE
  }

  function Epoch(now: nat): nat {
    now / MINUTE
  }

  lemma EpochGrows(a: nat, b: nat)
    requires a <= b
    ensures Epoch(a) <= Epoch(b)
  {}

  // ---------- error rate ----------

  /** One signal the error-rate rule looks at. */
  datatype Seen = Seen(service: string, isError: bool, now: nat)

  predicate Timely(history: seq<Seen>) {
    forall i, j | 0 <= i < j < |history| :: history[i].now <= history[j].now
  }

  /** The hits of one service: every signal, or its errors alone. */
  function HitsOf(history: seq<Seen>, service: string, errorsOnly: bool): seq<Hit> {
    if history == [] then []
    else
      var s := history[|history| - 1];
      var before := HitsOf(history[..|history| - 1], service, errorsOnly);
      if s.service == service && (errorsOnly ==> s.isError) then before + [Hit(Epoch(s.now), 1)] else before
  }

  /** How many of a service's signals (or errors) fall in the window at `now`. */
  function CountIn(history: seq<Seen>, service: string, errorsOnly: bool, window: int, now: nat): int {
    if history == [] then 0
    else
      var s := history[|history| - 1];
      CountIn(history[..|history| - 1], service, errorsOnly, window, now) +
      if s.service == service && (errorsOnly ==> s.isError) && Live(Epoch(s.now), Buckets(window), Epoch(now)) then 1 else 0
  }

  function Rate(count: int, window: int): real {
    count as real * 1_000_000_000.0 / Span(window) as real
  }

  predicate TooManyErrors(history: seq<Seen>, service: string, window: int, threshold: real, now: nat) {
    Rate(CountIn(history, service, true, window, now), window) >= threshold
  }

  /** Whether the service was over its threshold at its latest signal. */
  predicate WasFiring(history: seq<Seen>, service: string, window: int, threshold: real) {
    history != [] &&
    var s := history[|history| - 1];
    if s.service == service then TooManyErrors(history, service, window, threshold, s.now)
    else WasFiring(history[..|history| - 1], service, window, threshold)
  }

  /** A rising edge: over the threshold at the latest signal of the history, but not at the one
      of the same service before it. */
  predicate RisingEdge(history: seq<Seen>, window: int, threshold: real)
    requires history != []
  {
    var s := history[|history| - 1];
    && TooManyErrors(history, s.service, window, threshold, s.now)
    && !WasFiring(history[..|history| - 1], s.service, window, threshold)
  }

  lemma {:induction false} HitsAreOrdered(history: seq<Seen>, service: string, errorsOnly: bool)
    requires Timely(history)
    ensures Ordered(HitsOf(history, service, errorsOnly))
    ensures forall h <- HitsOf(history, service, errorsOnly) :: h.epoch <= Epoch(history[|history| - 1].now)
    ensures history == [] ==> HitsOf(history, service, errorsOnly) == []
  {
    if history != [] {
      var before, s := history[..|history| - 1], history[|history| - 1];
      HitsAreOrdered(before, service, errorsOnly);
      var hits := HitsOf(before, service, errorsOnly);
      if before != [] {
        EpochGrows(before[|before| - 1].now, s.now);
      }
      assert forall k | 0 <= k < |hits| :: hits[k] in hits;
    }
  }

  lemma {:induction false} TotalIsCount(history: seq<Seen>, service: string, errorsOnly: bool, window: int, now: nat)
    ensures Total(HitsOf(history, service, errorsOnly), Buckets(window), Epoch(now)) ==
            CountIn(history, service, errorsOnly, window, now)
  {
    if history != [] {
      var before, s := history[..|history| - 1], history[|history| - 1];
      TotalIsCount(before, service, errorsOnly, window, now);
      var hits := HitsOf(before, service, errorsOnly);
      assert (hits + [Hit(Epoch(s.now), 1)])[..|hits|] == hits;
    }
  }

  /** What the ring of a service holds answers for its whole history. */
  lemma RingCounts(history: seq<Seen>, service: string, errorsOnly: bool, window: int, now: nat)
    requires Timely(history) && (history != [] ==> history[|history| - 1].now <= now)
    ensures SumOf(Replay(HitsOf(history, service, errorsOnly), Buckets(window)), Buckets(window), Epoch(now)) ==
            CountIn(history, service, errorsOnly, window, now)
  {
    HitsAreOrdered(history, service, errorsOnly);
    var hits := HitsOf(history, service, errorsOnly);
    if hits != [] {
      assert hits[|hits| - 1] in hits;
      EpochGrows(history[|history| - 1].now, now);
    }
    hide HitsOf, CountIn, SumOf, Total, Replay;
    SumIsTotal(hits, Buckets(window), Epoch(now));
    TotalIsCount(history, service, errorsOnly, window, now);
  }

  lemma {:induction false} CountBounds(history: seq<Seen>, service: string, window: int, now: nat)
    ensures 0 <= CountIn(history, service, true, window, now) <= CountIn(history, service, false, window, now)
  {
    if history != [] {
      CountBounds(history[..|history| - 1], service, window, now);
    }
  }

  function OnlyOf(history: seq<Seen>, service: string): seq<Seen> {
    if history == [] then []
    else
      var s := history[|history| - 1];
      OnlyOf(history[..|history| - 1], service) + if s.service == service then [s] else []
  }

  lemma {:induction false} CountIsLocal(history: seq<Seen>, service: string, errorsOnly: bool, window: int, now: nat)
    ensures CountIn(history, service, errorsOnly, window, now) ==
            CountIn(OnlyOf(history, service), service, errorsOnly, window, now)
  {
    if history != [] {
      var before, s := history[..|history| - 1], history[|history| - 1];
      CountIsLocal(before, service, errorsOnly, window, now);
      if s.service == service {
        var mine := OnlyOf(before, service);
        assert (mine + [s])[..|mine|] == mine;
      } else {
        assert OnlyOf(before, service) + [] == OnlyOf(before, service);
      }
    }
  }

  lemma {:induction false} FiringIsLocal(history: seq<Seen>, service: string, window: int, threshold: real)
    ensures WasFiring(history, service, window, threshold) == WasFiring(OnlyOf(history, service), service, window, threshold)
  {
    if history != [] {
      var before, s := history[..|history| - 1], history[|history| - 1];
      if s.service == service {
        CountIsLocal(history, service, true, window, s.now);
      } else {
        FiringIsLocal(before, service, window, threshold);
        assert OnlyOf(history, service) == OnlyOf(before, service);
      }
    }
  }

  /** Signals of other services never add, remove or move an event. */
  lemma ServicesAreIndependent(history: seq<Seen>, s: Seen, window: int, threshold: real)
    ensures RisingEdge(history + [s], window, threshold) ==
            RisingEdge(OnlyOf(history, s.service) + [s], window, threshold)
  {
    var mine := OnlyOf(history, s.service);
    assert (history + [s])[..|history|] == history && (mine + [s])[..|mine|] == mine;
    hide WasFiring;
    FiringIsLocal(history, s.service, window, threshold);
    CountIsLocal(history + [s], s.service, true, window, s.now);
  }

  datatype ErrorEvent = ErrorEvent(service: string, at: nat, errorRate: real, errorRatio: real, totalRate: real)

  function At<T>(m: map<string, seq<T>>, key: string): seq<T> {
    if key in m then m[key] else []
  }

  /** The map from services to their sliding windows; `hits` is everything each was given. */
  class WindowTable {
    const window: int
    var windows: map<string, SlidingWindow>
    ghost var hits: map<string, seq<Hit>>
    ghost var Repr: set<object>

    ghost predicate Holds(w: SlidingWindow, hs: seq<Hit>)
      reads w.buckets
    {
      && w.Valid() && w.bucketSize == MINUTE && w.buckets.Length == Buckets(window)
      && w.window == Span(window) && w.buckets[..] == Replay(hs, Buckets(window))
    }

    /** Every service has a ring of its own, which is the replay of its hits. */
    ghost predicate Valid()
      reads this, Repr
      ensures Valid() ==> this in Repr
    {
      && this in Repr
      && (forall s <- windows :: windows[s].buckets in Repr && Holds(windows[s], At(hits, s)))
      && (forall s | s !in windows :: At(hits, s) == [])
      && (forall s <- windows, t <- windows | windows[s].buckets == windows[t].buckets :: s == t)
    }

    constructor (window: int)
      ensures Valid() && fresh(Repr) && hits == map[] && this.window == window
    {
      this.window, windows, hits, Repr := window, map[], map[], {this};
    }

    method Touch(service: string)
      requires Valid()
      modifies `windows, `Repr
      ensures Valid() && fresh(Repr - old(Repr)) && service in windows
    {
      if service !in windows {
        var w := new SlidingWindow(window, MINUTE);
        NoHits(Buckets(window));
        assert Holds(w, []);
        hide Holds;
        windows := windows[service := w];
        Repr := Repr + {w.buckets};
      }
    }

    method Add(service: string, now: nat)
      requires Valid() && service in windows
      modifies Repr
      ensures Valid() && Repr == old(Repr) && service in windows
      ensures hits == Recorded(old(hits), service, now, true)
    {
      hide Replay;
      ReplayMore(At(hits, service), Hit(Epoch(now), 1), Buckets(window));
      windows[service].AddAt(now, 1);
      hits := hits[service := At(hits, service) + [Hit(Epoch(now), 1)]];
    }

    /** Make the window on first use, then count the signal if it is one to count. */
    method Record(service: string, now: nat, counted: bool)
      requires Valid()
      modifies Repr
      ensures Valid() && fresh(Repr - old(Repr)) && service in windows
      ensures hits == Recorded(old(hits), service, now, counted)
    {
      hide Valid;
      Touch(service);
      if counted {
        Add(service, now);
      }
    }

    /** The true windowed total of a service, whenever its hits came in epoch order. */
    method Sum(service: string, now: nat) returns (total: int)
      requires Valid() && service in windows && Ordered(At(hits, service))
      requires forall h <- At(hits, service) :: h.epoch <= Epoch(now)
      ensures total == Total(At(hits, service), Buckets(window), Epoch(now))
    {
      var hs := At(hits, service);
      assert hs != [] ==> hs[|hs| - 1] in hs;
      SumIsTotal(hs, Buckets(window), Epoch(now));
      total := windows[service].Sum(now);
    }
  }

  function Recorded(hits: map<string, seq<Hit>>, service: string, now: nat, counted: bool): map<string, seq<Hit>> {
    if counted then hits[service := At(hits, service) + [Hit(Epoch(now), 1)]] else hits
  }

  lemma NoHits(n: nat)
    requires n > 0
    ensures Replay([], n) == Blank(n)
  {}

  lemma ReplayMore(hits: seq<Hit>, h: Hit, n: nat)
    requires n > 0
    ensures Replay(hits + [h], n) == Add(Replay(hits, n), h)
  {
    assert (hits + [h])[..|hits|] == hits;
  }

  class HighErrorRateRule {
    const window: int
    const threshold: real
    const totals: WindowTable
    const errors: WindowTable
    var firing: map<string, bool>
    ghost var history: seq<Seen>

    ghost predicate Apart()
      reads this, totals, totals.Repr, errors, errors.Repr
    {
      && totals.Valid() && errors.Valid() && totals.Repr !! errors.Repr
      && this !in totals.Repr && this !in errors.Repr
      && totals.window == window && errors.window == window
    }

    ghost predicate Valid()
      reads this, totals, totals.Repr, errors, errors.Repr
    {
      && Apart() && Timely(history)
      && Mirrors(totals.hits, history, false) && Mirrors(errors.hits, history, true)
      && Agrees(firing, history, window, threshold)
    }

    constructor (window: int, threshold: real)
      ensures Valid() && history == [] && this.window == window && this.threshold == threshold
    {
      this.window, this.threshold := window, threshold;
      totals := new WindowTable(window);
      errors := new WindowTable(window);
      firing, history := map[], [];
    }

    /** Count one signal in the windows of its service. */
    method Count(service: string, isError: bool, now: nat)
      requires Valid() && (history != [] ==> history[|history| - 1].now <= now)
      modifies `history, totals.Repr, errors.Repr
      ensures Apart() && fresh(totals.Repr - old(totals.Repr)) && fresh(errors.Repr - old(errors.Repr))
      ensures history == old(history) + [Seen(service, isError, now)] && Timely(history)
      ensures service in totals.windows && service in errors.windows
      ensures Mirrors(totals.hits, history, false) && Mirrors(errors.hits, history, true)
    {
      hide Mirrors, Agrees, WindowTable.Valid, Recorded;
      var seen := Seen(service, isError, now);
      MirrorsMore(totals.hits, history, seen, false);
      MirrorsMore(errors.hits, history, seen, true);
      totals.Record(service, now, true);
      errors.Record(service, now, isError);
      history := history + [seen];
    }

    /** The true number of signals, or of errors, of the service in the window. */
    method CountOf(table: WindowTable, service: string, errorsOnly: bool, now: nat) returns (n: int)
      requires table.Valid() && table.window == window && service in table.windows
      requires Mirrors(table.hits, history, errorsOnly)
      requires Timely(history) && history != [] && history[|history| - 1].now <= now
      ensures n == CountIn(history, service, errorsOnly, window, now)
    {
      hide HitsOf, CountIn;
      assert At(table.hits, service) == HitsOf(history, service, errorsOnly);
      HitsAreOrdered(history, service, errorsOnly);
      EpochGrows(history[|history| - 1].now, now);
      TotalIsCount(history, service, errorsOnly, window, now);
      n := table.Sum(service, now);
    }

    /** The edge memory: fire only when the service was not over its threshold before. */
    method Edge(service: string, over: bool) returns (fire: bool)
      modifies `firing
      ensures fire == (over && !Flag(old(firing), service))
      ensures Moved(old(firing), firing, service, over)
    {
      if over {
        if service !in firing || !firing[service] {
          firing := firing[service := true];
          return true;
        }
        return false;
      }
      firing := firing[service := false];
      return false;
    }

    /** One signal: an event exactly on a rising edge of its service's true windowed error rate. */
    method Evaluate(sig: Signal, now: nat) returns (event: Option<ErrorEvent>)
      requires Valid() && (history != [] ==> history[|history| - 1].now <= now)
      modifies this, totals.Repr, errors.Repr
      ensures Valid()
      ensures sig.kind != Log && sig.kind != Trace ==> event == None && history == old(history)
      ensures sig.kind == Log || sig.kind == Trace ==>
                && history == old(history) + [Seen(ServiceName(sig), Attribute(sig, "severity") == Some("ERROR"), now)]
                && (event.Some? <==> RisingEdge(history, window, threshold))
      ensures event.Some? ==>
                var errs := CountIn(history, ServiceName(sig), true, window, now);
                var all := CountIn(history, ServiceName(sig), false, window, now);
                && 0 <= errs <= all && 0 < all
                && event.value == ErrorEvent(ServiceName(sig), now, Rate(errs, window), errs as real / all as real, Rate(all, window))
    {
      hide HitsOf, CountIn, Rate, Mirrors, Agrees, WindowTable.Valid, ServiceName, Attribute, RisingEdge, Moved, Flag;
      if sig.kind != Log && sig.kind != Trace {
        return None;
      }
      var service := ServiceName(sig);
      var isError := Attribute(sig, "severity") == Some("ERROR");
      ghost var before := history;
      Count(service, isError, now);
      assert history[..|before|] == before;
      var errs := CountOf(errors, service, true, now);
      var all := CountOf(totals, service, false, now);
      SignalCounts(before, Seen(service, isError, now), window);
      CountBounds(history, service, window, now);
      RatioOfRates(errs, all, window);
      var errRate, totalRate := Rate(errs, window), Rate(all, window);
      var errorRatio := 0.0;
      if totalRate > 0.0 {
        errorRatio := errRate / totalRate;
      }
      ghost var was := firing;
      var fire := Edge(service, errRate >= threshold);
      AgreesMore(was, firing, before, Seen(service, isError, now), window, threshold);
      return if fire then Some(ErrorEvent(service, now, errRate, errorRatio, totalRate)) else None;
    }
  }

  predicate Flag(firing: map<string, bool>, service: string) {
    service in firing && firing[service]
  }

  ghost predicate Moved(was: map<string, bool>, now: map<string, bool>, service: string, over: bool) {
    forall s :: Flag(now, s) == if s == service then over else Flag(was, s)
  }

  function Attribute(s: Signal, name: string): Option<string> {
    if name in s.attributes then Some(s.attributes[name]) else None
  }

  lemma OneMore(history: seq<Seen>, s: Seen, service: string, errorsOnly: bool)
    ensures HitsOf(history + [s], service, errorsOnly) ==
            HitsOf(history, service, errorsOnly) +
            if service == s.service && (errorsOnly ==> s.isError) then [Hit(Epoch(s.now), 1)] else []
  {
    assert (history + [s])[..|history|] == history;
  }

  lemma SignalCounts(history: seq<Seen>, s: Seen, window: int)
    ensures CountIn(history + [s], s.service, false, window, s.now) > 0
  {
    assert (history + [s])[..|history|] == history;
    CountBounds(history, s.service, window, s.now);
  }

  lemma RatioOfRates(errs: int, all: int, window: int)
    requires 0 <= errs <= all && 0 < all
    ensures Rate(all, window) > 0.0 && Rate(errs, window) / Rate(all, window) == errs as real / all as real
  {
    var k := 1_000_000_000.0 / Span(window) as real;
    assert Rate(all, window) == all as real * k && Rate(errs, window) == errs as real * k;
    assert k > 0.0;
  }

  /** The flag map says of every service whether it was firing. */
  ghost predicate Agrees(firing: map<string, bool>, history: seq<Seen>, window: int, threshold: real) {
    forall s :: Flag(firing, s) == WasFiring(history, s, window, threshold)
  }

  /** Moving the flag of one service is exactly the rising-edge test. */
  lemma AgreesMore(was: map<string, bool>, firing: map<string, bool>, history: seq<Seen>, s: Seen, window: int, threshold: real)
    requires Agrees(was, history, window, threshold)
    requires Moved(was, firing, s.service, TooManyErrors(history + [s], s.service, window, threshold, s.now))
    ensures Agrees(firing, history + [s], window, threshold)
    ensures RisingEdge(history + [s], window, threshold) <==>
            TooManyErrors(history + [s], s.service, window, threshold, s.now) && !Flag(was, s.service)
  {
    assert (history + [s])[..|history|] == history;
    hide TooManyErrors;
    forall t
      ensures WasFiring(history + [s], t, window, threshold) ==
              if t == s.service then TooManyErrors(history + [s], t, window, threshold, s.now) else WasFiring(history, t, window, threshold)
    {}
    hide WasFiring;
  }

  ghost predicate Mirrors(hits: map<string, seq<Hit>>, history: seq<Seen>, errorsOnly: bool) {
    forall s :: At(hits, s) == HitsOf(history, s, errorsOnly)
  }

  lemma MirrorsMore(hits: map<string, seq<Hit>>, history: seq<Seen>, s: Seen, errorsOnly: bool)
    requires Mirrors(hits, history, errorsOnly)
    ensures Mirrors(Recorded(hits, s.service, s.now, errorsOnly ==> s.isError), history + [s], errorsOnly)
  {
    hide HitsOf;
    var after := Recorded(hits, s.service, s.now, errorsOnly ==> s.isError);
    forall t ensures At(after, t) == HitsOf(history + [s], t, errorsOnly) {
      OneMore(history, s, t, errorsOnly);
    }
  }

  // ---------- latency ----------

  /** One signal the latency rule looks at. */
  datatype Timed = Timed(service: string, ms: real, now: nat)

  predicate InOrder(history: seq<Timed>) {
    forall i, j | 0 <= i < j < |history| :: history[i].now <= history[j].now
  }

  function SamplesOf(history: seq<Timed>, service: string): seq<Sample> {
    if history == [] then []
    else
      var s := history[|history| - 1];
      SamplesOf(history[..|history| - 1], service) + if s.service == service then [Sample(Epoch(s.now), s.ms)] else []
  }

  /** The largest latency of a service in the window at `now`, and never less than zero. */
  function PeakIn(history: seq<Timed>, service: string, window: int, now: nat): real {
    if history == [] then 0.0
    else
      var s := history[|history| - 1];
      var before := PeakIn(history[..|history| - 1], service, window, now);
      if s.service == service && Live(Epoch(s.now), Buckets(window), Epoch(now)) then Max(before, s.ms) else before
  }

  predicate WasSlow(history: seq<Timed>, service: string, window: int, threshold: real) {
    history != [] &&
    var s := history[|history| - 1];
    if s.service == service then PeakIn(history, service, window, s.now) >= threshold
    else WasSlow(history[..|history| - 1], service, window, threshold)
  }

  predicate RisingPeak(history: seq<Timed>, window: int, threshold: real)
    requires history != []
  {
    var s := history[|history| - 1];
    && PeakIn(history, s.service, window, s.now) >= threshold
    && !WasSlow(history[..|history| - 1], s.service, window, threshold)
  }

  lemma {:induction false} SamplesAreOrdered(history: seq<Timed>, service: string)
    requires InOrder(history)
    ensures OrderedSamples(SamplesOf(history, service))
    ensures forall x <- SamplesOf(history, service) :: x.epoch <= Epoch(history[|history| - 1].now)
  {
    if history != [] {
      var before, s := history[..|history| - 1], history[|history| - 1];
      SamplesAreOrdered(before, service);
      var samples := SamplesOf(before, service);
      if before != [] {
        EpochGrows(before[|before| - 1].now, s.now);
      }
      assert forall k | 0 <= k < |samples| :: samples[k] in samples;
    }
  }

  lemma {:induction false} HighestIsPeak(history: seq<Timed>, service: string, window: int, now: nat)
    ensures Highest(SamplesOf(history, service), Buckets(window), Epoch(now)) == PeakIn(history, service, window, now)
  {
    if history != [] {
      var before, s := history[..|history| - 1], history[|history| - 1];
      HighestIsPeak(before, service, window, now);
      var samples := SamplesOf(before, service);
      if s.service == service {
        assert (samples + [Sample(Epoch(s.now), s.ms)])[..|samples|] == samples;
      } else {
        assert samples + [] == samples;
      }
    }
  }

  /** What a tracker's ring holds answers for the whole history of its service. */
  lemma PeakOfRing(history: seq<Timed>, service: string, window: int, now: nat)
    requires InOrder(history) && history != [] && history[|history| - 1].now <= now
    ensures MaxOf(ReplayPeaks(SamplesOf(history, service), Buckets(window)), Buckets(window), Epoch(now)) ==
            PeakIn(history, service, window, now)
  {
    SamplesAreOrdered(history, service);
    EpochGrows(history[|history| - 1].now, now);
    hide SamplesOf, PeakIn, ReplayPeaks, MaxOf;
    var samples := SamplesOf(history, service);
    assert samples != [] ==> samples[|samples| - 1] in samples;
    MaxIsHighest(samples, Buckets(window), Epoch(now));
    HighestIsPeak(history, service, window, now);
  }

  function ThisService(history: seq<Timed>, service: string): seq<Timed> {
    if history == [] then []
    else
      var s := history[|history| - 1];
      ThisService(history[..|history| - 1], service) + if s.service == service then [s] else []
  }

  lemma {:induction false} PeakIsLocal(history: seq<Timed>, service: string, window: int, now: nat)
    ensures PeakIn(history, service, window, now) == PeakIn(ThisService(history, service), service, window, now)
  {
    if history != [] {
      var before, s := history[..|history| - 1], history[|history| - 1];
      PeakIsLocal(before, service, window, now);
      var mine := ThisService(before, service);
      if s.service == service {
        assert (mine + [s])[..|mine|] == mine;
      } else {
        assert mine + [] == mine;
      }
    }
  }

  lemma {:induction false} SlowIsLocal(history: seq<Timed>, service: string, window: int, threshold: real)
    ensures WasSlow(history, service, window, threshold) == WasSlow(ThisService(history, service), service, window, threshold)
  {
    if history != [] {
      var before, s := history[..|history| - 1], history[|history| - 1];
      if s.service == service {
        PeakIsLocal(history, service, window, s.now);
      } else {
        SlowIsLocal(before, service, window, threshold);
        assert ThisService(history, service) == ThisService(before, service);
      }
    }
  }

  /** Latencies of other services never add, remove or move an event. */
  lemma LatencyIsIndependent(history: seq<Timed>, s: Timed, window: int, threshold: real)
    ensures RisingPeak(history + [s], window, threshold) ==
            RisingPeak(ThisService(history, s.service) + [s], window, threshold)
  {
    var mine := ThisService(history, s.service);
    assert (history + [s])[..|history|] == history && (mine + [s])[..|mine|] == mine;
    hide WasSlow;
    SlowIsLocal(history, s.service, window, threshold);
    PeakIsLocal(history + [s], s.service, window, s.now);
  }

  datatype LatencyEvent = LatencyEvent(service: string, at: nat, peak: real, threshold: real)

  class HighLatencyRule {
    const window: int
    const threshold: real
    var maxes: map<string, LatencyTracker>
    var firing: map<string, bool>
    ghost var history: seq<Timed>
    ghost var Repr: set<object>

    /** Every service that was seen has a ring of its own, the replay of its samples. */
    ghost predicate Rings(h: seq<Timed>)
      reads `maxes, Repr, `Repr
    {
      && (forall s <- maxes :: maxes[s].buckets in Repr && Holds(maxes[s], SamplesOf(h, s)))
      && (forall s <- maxes, t <- maxes | maxes[s].buckets == maxes[t].buckets :: s == t)
      && (forall s | s !in maxes :: SamplesOf(h, s) == [])
    }

    ghost predicate Holds(l: LatencyTracker, samples: seq<Sample>)
      reads l.buckets
    {
      && l.Valid() && l.bucketSize == MINUTE && l.buckets.Length == Buckets(window)
      && l.buckets[..] == ReplayPeaks(samples, Buckets(window))
    }

    ghost predicate Valid()
      reads this, Repr
    {
      this !in Repr && InOrder(history) && Rings(history) && Marks(firing, history, window, threshold)
    }

    constructor (window: int, threshold: real)
      ensures Valid() && history == [] && fresh(Repr) && this.window == window && this.threshold == threshold
    {
      this.window, this.threshold := window, threshold;
      maxes, firing, history, Repr := map[], map[], [], {};
    }

    method Tracker(service: string) returns (l: LatencyTracker)
      requires this !in Repr && Rings(history)
      modifies `maxes, `Repr
      ensures this !in Repr && Rings(history) && fresh(Repr - old(Repr))
      ensures service in maxes && maxes[service] == l
    {
      if service !in maxes {
        l := new LatencyTracker(window, MINUTE);
        NoSamples(Buckets(window));
        assert Holds(l, SamplesOf(history, service));
        hide Holds, SamplesOf, ReplayPeaks, BlankPeaks, Buckets, Span;
        maxes := maxes[service := l];
        Repr := Repr + {l.buckets};
      } else {
        l := maxes[service];
      }
    }

    /** Record one latency in the ring of its service, and read the true peak back. */
    method Peak(service: string, ms: real, now: nat) returns (peak: real)
      requires this !in Repr && Rings(history) && InOrder(history) && (history != [] ==> history[|history| - 1].now <= now)
      modifies `maxes, `Repr, `history, Repr
      ensures history == old(history) + [Timed(service, ms, now)] && InOrder(history)
      ensures this !in Repr && Rings(history) && fresh(Repr - old(Repr))
      ensures peak == PeakIn(history, service, window, now)
    {
      hide ReplayPeaks, SamplesOf, MaxOf, PeakIn;
      var l := Tracker(service);
      var seen := Timed(service, ms, now);
      SamplesMore(history, seen, Buckets(window));
      l.Observe(now, ms);
      history := history + [seen];
      PeakOfRing(history, service, window, now);
      peak := l.MaxIn(now);
    }

    /** The edge memory: fire only when the service was not over its threshold before. */
    method Edge(service: string, over: bool) returns (fire: bool)
      modifies `firing
      ensures fire == (over && !Flag(old(firing), service))
      ensures Moved(old(firing), firing, service, over)
    {
      if over {
        if service !in firing || !firing[service] {
          firing := firing[service := true];
          return true;
        }
        return false;
      }
      firing := firing[service := false];
      return false;
    }

    /** One signal: an event exactly on a rising edge of its service's true windowed peak. */
    method Evaluate(sig: Signal, parse: string -> Option<real>, now: nat) returns (event: Option<LatencyEvent>)
      requires Valid() && (history != [] ==> history[|history| - 1].now <= now)
      modifies this, Repr
      ensures Valid() && fresh(Repr - old(Repr))
      ensures var ms := Duration(sig, parse);
              if ms == None then event == None && history == old(history)
              else
                && history == old(history) + [Timed(ServiceName(sig), ms.value, now)]
                && (event.Some? <==> RisingPeak(history, window, threshold))
                && (event.Some? ==> event.value == LatencyEvent(ServiceName(sig), now, PeakIn(history, ServiceName(sig), window, now), threshold))
    {
      hide PeakIn, Rings, Marks, RisingPeak, ServiceName, InOrder, Moved, Flag;
      if sig.kind != Trace || "duration_ms" !in sig.attributes {
        return None;
      }
      var dur := parse(sig.attributes["duration_ms"]);
      if dur == None {
        return None;
      }
      var service := ServiceName(sig);
      ghost var before := history;
      var peak := Peak(service, dur.value, now);
      ghost var was := firing;
      var fire := Edge(service, peak >= threshold);
      MarksMore(was, firing, before, Timed(service, dur.value, now), window, threshold);
      return if fire then Some(LatencyEvent(service, now, peak, threshold)) else None;
    }
  }

  /** The latency of a signal: a trace with a readable duration. */
  function Duration(sig: Signal, parse: string -> Option<real>): Option<real> {
    if sig.kind != Trace || "duration_ms" !in sig.attributes then None else parse(sig.attributes["duration_ms"])
  }

  lemma NoSamples(n: nat)
    requires n > 0
    ensures ReplayPeaks([], n) == BlankPeaks(n)
  {}

  lemma SamplesMore(history: seq<Timed>, s: Timed, n: nat)
    requires n > 0
    ensures forall t | t != s.service :: SamplesOf(history + [s], t) == SamplesOf(history, t)
    ensures ReplayPeaks(SamplesOf(history + [s], s.service), n) ==
            Track(ReplayPeaks(SamplesOf(history, s.service), n), Sample(Epoch(s.now), s.ms))
  {
    assert (history + [s])[..|history|] == history;
    forall t | t != s.service ensures SamplesOf(history + [s], t) == SamplesOf(history, t) {
      assert SamplesOf(history, t) + [] == SamplesOf(history, t);
    }
    var samples := SamplesOf(history, s.service);
    assert (samples + [Sample(Epoch(s.now), s.ms)])[..|samples|] == samples;
  }

  /** The flag map says of every service whether it was slow. */
  ghost predicate Marks(firing: map<string, bool>, history: seq<Timed>, window: int, threshold: real) {
    forall s :: Flag(firing, s) == WasSlow(history, s, window, threshold)
  }

  lemma MarksMore(was: map<string, bool>, firing: map<string, bool>, history: seq<Timed>, s: Timed,
          window: int, threshold: real)
    requires Marks(was, history, window, threshold)
    requires Moved(was, firing, s.service, PeakIn(history + [s], s.service, window, s.now) >= threshold)
    ensures Marks(firing, history + [s], window, threshold)
    ensures RisingPeak(history + [s], window, threshold) <==>
            PeakIn(history + [s], s.service, window, s.now) >= threshold && !Flag(was, s.service)
  {
    assert (history + [s])[..|history|] == history;
    hide PeakIn;
    forall t
      ensures WasSlow(history + [s], t, window, threshold) ==
              if t == s.service then PeakIn(history + [s], t, window, s.now) >= threshold else WasSlow(history, t, window, threshold)
    {}
    hide WasSlow;
  }
}
