/** Multi-window burn-rate alerts (pkg/sloburn/sloburn.go): trimmed per-minute buckets against the
    full log of observations, and the choice among the window pairs that trip. Times are integer
    nanoseconds since 1970, rates are reals and counters are unbounded. */
module Sloburn {
  import opened Optional

  const SECOND := 1_000_000_000
  const MINUTE := 60 * SECOND

  /** Seconds since 1970, rounded down. */
  function Unix(t: int): int {
    t / SECOND
  }

  /** Integer division that truncates toward zero. */
  function Truncate(a: int, b: int): int
    requires b > 0
  {
    if a >= 0 then a / b else -((-a) / b)
  }

  function Epoch(t: int): int {
    Truncate(Unix(t), 60)
  }

  lemma EpochGrows(t: int, u: int)
    requires t <= u
    ensures Epoch(t) <= Epoch(u)
  {}

  // ---------- buckets ----------

  datatype Bucket = Bucket(epoch: int, good: int, bad: int)

  /** The first bucket of that epoch at or after k, or the length of the list. */
  function Find(bs: seq<Bucket>, epoch: int, k: nat): (i: nat)
    requires k <= |bs|
    ensures k <= i <= |bs| && (i < |bs| ==> bs[i].epoch == epoch)
    ensures forall j | k <= j < i :: bs[j].epoch != epoch
    decreases |bs| - k
  {
    if k == |bs| || bs[k].epoch == epoch then k else Find(bs, epoch, k + 1)
  }

  function AddTo(bs: seq<Bucket>, epoch: int, g: int, b: int): seq<Bucket> {
    var i := Find(bs, epoch, 0);
    if i < |bs| then bs[i := Bucket(epoch, bs[i].good + g, bs[i].bad + b)] else bs + [Bucket(epoch, g, b)]
  }

  function Newer(bs: seq<Bucket>, cutoff: int): seq<Bucket> {
    if bs == [] then []
    else
      var b := bs[|bs| - 1];
      Newer(bs[..|bs| - 1], cutoff) + if b.epoch > cutoff then [b] else []
  }

  function Max(a: int, b: int): int {
    if a >= b then a else b
  }

  function Min(a: int, b: int): int {
    if a <= b then a else b
  }

  function Amount(b: Bucket, good: bool, lo: int, hi: int): int {
    if lo < b.epoch <= hi then (if good then b.good else b.bad) else 0
  }

  /** The good (or bad) events of the buckets after lo and up to hi. */
  function SumIn(bs: seq<Bucket>, good: bool, lo: int, hi: int): int {
    if bs == [] then 0 else SumIn(bs[..|bs| - 1], good, lo, hi) + Amount(bs[|bs| - 1], good, lo, hi)
  }

  method AddToBucket(bs: seq<Bucket>, epoch: int, g: int, b: int) returns (out: seq<Bucket>)
    ensures out == AddTo(bs, epoch, g, b)
  {
    var i := 0;
    while i < |bs|
      invariant 0 <= i <= |bs| && Find(bs, epoch, 0) == Find(bs, epoch, i)
    {
      if bs[i].epoch == epoch {
        return bs[i := bs[i].(good := bs[i].good + g, bad := bs[i].bad + b)];
      }
      i := i + 1;
    }
    return bs + [Bucket(epoch, g, b)];
  }

  method TrimOlder(bs: seq<Bucket>, cutoff: int) returns (out: seq<Bucket>)
    ensures out == Newer(bs, cutoff)
  {
    out := [];
    for i := 0 to |bs|
      invariant out == Newer(bs[..i], cutoff)
    {
      assert bs[..i + 1][..i] == bs[..i];
      if bs[i].epoch > cutoff {
        out := out + [bs[i]];
      }
    }
    assert bs[..|bs|] == bs;
  }

  method SumBuckets(bs: seq<Bucket>, good: bool, cutoff: int, end: int) returns (n: int)
    ensures n == SumIn(bs, good, cutoff, end)
  {
    n := 0;
    for i := 0 to |bs|
      invariant n == SumIn(bs[..i], good, cutoff, end)
    {
      assert bs[..i + 1][..i] == bs[..i];
      if bs[i].epoch > cutoff && bs[i].epoch <= end {
        n := n + if good then bs[i].good else bs[i].bad;
      }
    }
    assert bs[..|bs|] == bs;
  }

  lemma {:induction false} SumUpdate(bs: seq<Bucket>, k: nat, b: Bucket, good: bool, lo: int, hi: int)
    requires k < |bs|
    ensures SumIn(bs[k := b], good, lo, hi) == SumIn(bs, good, lo, hi) - Amount(bs[k], good, lo, hi) + Amount(b, good, lo, hi)
  {
    var last := |bs| - 1;
    if k == last {
      assert bs[k := b][..last] == bs[..last];
    } else {
      SumUpdate(bs[..last], k, b, good, lo, hi);
      assert bs[k := b][..last] == bs[..last][k := b];
    }
  }

  lemma AddMovesSum(bs: seq<Bucket>, epoch: int, g: int, b: int, good: bool, lo: int, hi: int)
    ensures SumIn(AddTo(bs, epoch, g, b), good, lo, hi) == SumIn(bs, good, lo, hi) + Amount(Bucket(epoch, g, b), good, lo, hi)
  {
    var i := Find(bs, epoch, 0);
    if i < |bs| {
      SumUpdate(bs, i, Bucket(epoch, bs[i].good + g, bs[i].bad + b), good, lo, hi);
    } else {
      assert (bs + [Bucket(epoch, g, b)])[..|bs|] == bs;
    }
  }

  /** Trimming moves the start of a window up to the cutoff. */
  lemma {:induction false} TrimmedSum(bs: seq<Bucket>, cutoff: int, good: bool, lo: int, hi: int)
    ensures SumIn(Newer(bs, cutoff), good, lo, hi) == SumIn(bs, good, Max(lo, cutoff), hi)
  {
    if bs != [] {
      var before, b := bs[..|bs| - 1], bs[|bs| - 1];
      TrimmedSum(before, cutoff, good, lo, hi);
      var kept := Newer(before, cutoff);
      if b.epoch > cutoff {
        assert (kept + [b])[..|kept|] == kept;
      } else {
        assert kept + [] == kept;
      }
    }
  }

  lemma {:induction false} SumSplits(bs: seq<Bucket>, good: bool, lo: int, mid: int, hi: int)
    requires lo <= mid <= hi
    ensures SumIn(bs, good, lo, hi) == SumIn(bs, good, lo, mid) + SumIn(bs, good, mid, hi)
  {
    if bs != [] {
      SumSplits(bs[..|bs| - 1], good, lo, mid, hi);
    }
  }

  // ---------- one SLO ----------

  datatype WindowPair = WindowPair(long: int, short: int, burnRate: real, severity: string)

  datatype Slo = Slo(name: string, target: real, pairs: seq<WindowPair>)

  predicate IsValid(s: Slo) {
    s.name != "" && 0.0 < s.target < 1.0 && s.pairs != []
  }

  function ErrorBudget(s: Slo): real {
    1.0 - s.target
  }

  /** The longest window, and never less than zero. */
  function MaxKeep(pairs: seq<WindowPair>): (k: int)
    ensures k >= 0 && forall p <- pairs :: p.long <= k
    ensures k == 0 || exists p <- pairs :: p.long == k
  {
    if pairs == [] then 0
    else
      var p := pairs[|pairs| - 1];
      var k := MaxKeep(pairs[..|pairs| - 1]);
      assert pairs == pairs[..|pairs| - 1] + [p];
      if p.long > k then p.long else k
  }

  method LongestWindow(pairs: seq<WindowPair>) returns (maxKeep: int)
    ensures maxKeep == MaxKeep(pairs)
  {
    maxKeep := 0;
    for i := 0 to |pairs|
      invariant maxKeep == MaxKeep(pairs[..i])
    {
      assert pairs[..i + 1][..i] == pairs[..i];
      if pairs[i].long > maxKeep {
        maxKeep := pairs[i].long;
      }
    }
    assert pairs[..|pairs|] == pairs;
  }

  datatype Store = Store(slo: Slo, maxKeep: int, good: seq<Bucket>, bad: seq<Bucket>)

  function Fresh(slo: Slo): Store {
    Store(slo, MaxKeep(slo.pairs), [], [])
  }

  function Cutoff(maxKeep: int, at: int): int {
    Epoch(at - maxKeep - MINUTE)
  }

  function Record(s: Store, good: bool, at: int): Store {
    var g := if good then AddTo(s.good, Epoch(at), 1, 0) else s.good;
    var b := if good then s.bad else AddTo(s.bad, Epoch(at), 0, 1);
    var cutoff := Cutoff(s.maxKeep, at);
    s.(good := Newer(g, cutoff), bad := Newer(b, cutoff))
  }

  function Burn(good: int, bad: int, budget: real): real {
    if budget <= 0.0 then 0.0
    else if good + bad == 0 then 0.0
    else bad as real / (good + bad) as real / budget
  }

  function BurnRate(s: Store, window: int, now: int, budget: real): real {
    var cutoff, end := Epoch(now - window), Epoch(now);
    Burn(SumIn(s.good, true, cutoff, end), SumIn(s.bad, false, cutoff, end), budget)
  }

  // ---------- the full log ----------

  datatype Event = Register(slo: Slo) | Observe(good: bool, at: int)

  /** How many good (or bad) observations of the log fall after lo and up to hi. */
  function CountIn(events: seq<Event>, good: bool, lo: int, hi: int): int {
    if events == [] then 0
    else
      var e := events[|events| - 1];
      CountIn(events[..|events| - 1], good, lo, hi) +
      if e.Observe? && e.good == good && lo < Epoch(e.at) <= hi then 1 else 0
  }

  function Apply(s: Store, e: Event): Store {
    match e
    case Register(slo) => s.(slo := slo, maxKeep := MaxKeep(slo.pairs))
    case Observe(good, at) => Record(s, good, at)
  }

  function Run(slo: Slo, events: seq<Event>): Store {
    if events == [] then Fresh(slo) else Apply(Run(slo, events[..|events| - 1]), events[|events| - 1])
  }

  /** Every observation came at or before `now`, while the retention covered `window`. */
  predicate Covered(slo: Slo, events: seq<Event>, window: int, now: int) {
    events != [] ==>
      && Covered(slo, events[..|events| - 1], window, now)
      && var e := events[|events| - 1];
         e.Observe? ==> e.at <= now && window <= Run(slo, events[..|events| - 1]).maxKeep
  }

  /** What the log says the burn rate is. */
  function TrueBurnRate(events: seq<Event>, window: int, now: int, budget: real): real {
    var cutoff, end := Epoch(now - window), Epoch(now);
    Burn(CountIn(events, true, cutoff, end), CountIn(events, false, cutoff, end), budget)
  }

  function Side(s: Store, good: bool): seq<Bucket> {
    if good then s.good else s.bad
  }

  function Hit(good: bool, e: Event, lo: int, hi: int): int {
    if e.Observe? && e.good == good && lo < Epoch(e.at) <= hi then 1 else 0
  }

  /** One observation: the window loses what lies at or before the cutoff. */
  lemma RecordMovesSum(s: Store, good: bool, e: Event, lo: int, hi: int)
    requires e.Observe?
    ensures var from := Max(lo, Cutoff(s.maxKeep, e.at));
            SumIn(Side(Apply(s, e), good), good, lo, hi) == SumIn(Side(s, good), good, from, hi) + Hit(good, e, from, hi)
  {
    hide SumIn, AddTo, Newer, Cutoff, Epoch, Max;
    var cutoff := Cutoff(s.maxKeep, e.at);
    var g, b := if good then 1 else 0, if good then 0 else 1;
    if e.good == good {
      AddMovesSum(Side(s, good), Epoch(e.at), g, b, good, Max(lo, cutoff), hi);
      TrimmedSum(AddTo(Side(s, good), Epoch(e.at), g, b), cutoff, good, lo, hi);
    } else {
      TrimmedSum(Side(s, good), cutoff, good, lo, hi);
    }
  }

  /** No observation of the window had an epoch that a cutoff, then or later, reached. */
  predicate NothingLost(slo: Slo, events: seq<Event>, good: bool, lo: int, hi: int) {
    events != [] ==>
      && NothingLost(slo, events[..|events| - 1], good, lo, hi)
      && var e := events[|events| - 1];
         e.Observe? ==> CountIn(events, good, lo, Min(Cutoff(Run(slo, events[..|events| - 1]).maxKeep, e.at), hi)) == 0
  }

  lemma {:induction false} CountSplits(events: seq<Event>, good: bool, lo: int, mid: int, hi: int)
    ensures lo <= mid <= hi ==> CountIn(events, good, lo, hi) == CountIn(events, good, lo, mid) + CountIn(events, good, mid, hi)
    ensures CountIn(events, good, lo, hi) >= 0 && (lo >= hi ==> CountIn(events, good, lo, hi) == 0)
  {
    hide Epoch;
    if events != [] {
      CountSplits(events[..|events| - 1], good, lo, mid, hi);
    }
  }

  lemma {:induction false} EmptySum(bs: seq<Bucket>, good: bool, lo: int, hi: int)
    requires lo >= hi
    ensures SumIn(bs, good, lo, hi) == 0
  {
    if bs != [] {
      EmptySum(bs[..|bs| - 1], good, lo, hi);
    }
  }

  lemma LostMore(slo: Slo, before: seq<Event>, e: Event, good: bool, lo: int, hi: int)
    requires e.Observe?
    ensures Run(slo, before + [e]) == Apply(Run(slo, before), e)
    ensures NothingLost(slo, before + [e], good, lo, hi) <==>
            NothingLost(slo, before, good, lo, hi)
            && CountIn(before + [e], good, lo, Min(Cutoff(Run(slo, before).maxKeep, e.at), hi)) == 0
  {
    assert (before + [e])[..|before|] == before;
    hide Apply, Cutoff, CountIn;
  }

  /** The cutoff lies before the window: nothing of it is trimmed. */
  lemma ExactBefore(slo: Slo, before: seq<Event>, e: Event, good: bool, lo: int, hi: int)
    requires e.Observe? && Cutoff(Run(slo, before).maxKeep, e.at) <= lo && ExactOn(slo, before, good, lo, hi)
    ensures ExactOn(slo, before + [e], good, lo, hi)
  {
    var c := Cutoff(Run(slo, before).maxKeep, e.at);
    LostMore(slo, before, e, good, lo, hi);
    RecordMovesSum(Run(slo, before), good, e, lo, hi);
    CountMore(before, e, good, lo, hi);
    CountSplits(before + [e], good, lo, lo, Min(c, hi));
    HitBounds(good, e, lo, hi);
    hide SumIn, CountIn, NothingLost, Run, Cutoff, Apply, Hit, Side;
  }

  /** The cutoff lies behind the window: all of it is trimmed. */
  lemma ExactBehind(slo: Slo, before: seq<Event>, e: Event, good: bool, lo: int, hi: int)
    requires e.Observe? && ExactOn(slo, before, good, lo, hi)
    requires var c := Cutoff(Run(slo, before).maxKeep, e.at); lo < c && hi <= c
    ensures ExactOn(slo, before + [e], good, lo, hi)
  {
    var s := Run(slo, before);
    var c := Cutoff(s.maxKeep, e.at);
    LostMore(slo, before, e, good, lo, hi);
    RecordMovesSum(s, good, e, lo, hi);
    EmptySum(Side(s, good), good, c, hi);
    CountMore(before, e, good, lo, hi);
    CountSplits(before, good, lo, lo, hi);
    CountSplits(before + [e], good, lo, lo, hi);
    HitBounds(good, e, c, hi);
    HitBounds(good, e, lo, hi);
    hide SumIn, CountIn, NothingLost, Run, Cutoff, Apply, Hit, Side;
  }

  /** The cutoff lies inside the window: exact before and nothing before the cutoff, or a real loss. */
  lemma ExactInside(slo: Slo, before: seq<Event>, e: Event, good: bool, lo: int, hi: int)
    requires e.Observe? && ExactOn(slo, before, good, lo, hi)
    requires var c := Cutoff(Run(slo, before).maxKeep, e.at);
             lo < c < hi && ExactOn(slo, before, good, lo, c) && ExactOn(slo, before, good, c, hi)
    ensures ExactOn(slo, before + [e], good, lo, hi)
  {
    var s := Run(slo, before);
    var c := Cutoff(s.maxKeep, e.at);
    LostMore(slo, before, e, good, lo, hi);
    RecordMovesSum(s, good, e, lo, hi);
    SumSplits(Side(s, good), good, lo, c, hi);
    CountSplits(before, good, lo, c, hi);
    CountSplits(before + [e], good, lo, c, hi);
    CountMore(before, e, good, lo, c);
    CountMore(before, e, good, c, hi);
    HitBounds(good, e, lo, c);
    HitBounds(good, e, c, hi);
    hide SumIn, CountIn, NothingLost, Run, Cutoff, Apply, Hit, Side;
  }

  lemma CountMore(before: seq<Event>, e: Event, good: bool, lo: int, hi: int)
    ensures CountIn(before + [e], good, lo, hi) == CountIn(before, good, lo, hi) + Hit(good, e, lo, hi)
  {
    assert (before + [e])[..|before|] == before;
  }

  lemma HitBounds(good: bool, e: Event, lo: int, hi: int)
    ensures 0 <= Hit(good, e, lo, hi) <= 1 && (lo >= hi ==> Hit(good, e, lo, hi) == 0)
  {}

  /** The bucket sum never exceeds the count of the log, and equals it exactly when nothing was lost. */
  predicate ExactOn(slo: Slo, events: seq<Event>, good: bool, lo: int, hi: int) {
    var sum, count := SumIn(Side(Run(slo, events), good), good, lo, hi), CountIn(events, good, lo, hi);
    0 <= sum <= count && (sum == count <==> NothingLost(slo, events, good, lo, hi))
  }

  lemma {:induction false} ExactEverywhere(slo: Slo, events: seq<Event>, good: bool, lo: int, hi: int)
    ensures ExactOn(slo, events, good, lo, hi)
    decreases |events|
  {
    if events != [] {
      var before, e := events[..|events| - 1], events[|events| - 1];
      ExactEverywhere(slo, before, good, lo, hi);
      assert events == before + [e];
      hide ExactOn;
      if e.Observe? {
        var c := Cutoff(Run(slo, before).maxKeep, e.at);
        if c <= lo {
          ExactBefore(slo, before, e, good, lo, hi);
        } else if hi <= c {
          ExactBehind(slo, before, e, good, lo, hi);
        } else {
          ExactEverywhere(slo, before, good, lo, c);
          ExactEverywhere(slo, before, good, c, hi);
          ExactInside(slo, before, e, good, lo, hi);
        }
      } else {
        RegisterKeepsExact(slo, before, e, good, lo, hi);
      }
    }
  }

  lemma RegisterKeepsExact(slo: Slo, before: seq<Event>, e: Event, good: bool, lo: int, hi: int)
    requires e.Register? && ExactOn(slo, before, good, lo, hi)
    ensures ExactOn(slo, before + [e], good, lo, hi)
  {
    assert (before + [e])[..|before|] == before;
    hide Epoch, SumIn;
  }

  /** Bucket sums are the counts of the full log, for any window and any run of registrations and
      observations, if and only if no cutoff ever reached an observation of the window. */
  lemma SumsAreCounts(slo: Slo, events: seq<Event>, good: bool, lo: int, hi: int)
    ensures SumIn(Side(Run(slo, events), good), good, lo, hi) == CountIn(events, good, lo, hi) <==>
            NothingLost(slo, events, good, lo, hi)
    ensures 0 <= SumIn(Side(Run(slo, events), good), good, lo, hi) <= CountIn(events, good, lo, hi)
  {
    ExactEverywhere(slo, events, good, lo, hi);
  }

  /** Neither the good nor the bad observations of a window were lost. */
  predicate Kept(slo: Slo, events: seq<Event>, window: int, now: int) {
    && NothingLost(slo, events, true, Epoch(now - window), Epoch(now))
    && NothingLost(slo, events, false, Epoch(now - window), Epoch(now))
  }

  lemma CutoffIsEarly(maxKeep: int, at: int, window: int, now: int)
    requires at <= now && window <= maxKeep
    ensures Cutoff(maxKeep, at) <= Epoch(now - window)
  {
    EpochGrows(at - maxKeep - MINUTE, now - window);
  }

  /** Nothing is lost while the retention covers the window and no observation is later than the
      evaluation, however out of order the observations come. */
  lemma {:induction false} CoveredIsKept(slo: Slo, events: seq<Event>, good: bool, window: int, now: int, hi: int)
    requires Covered(slo, events, window, now)
    ensures NothingLost(slo, events, good, Epoch(now - window), hi)
  {
    hide Epoch, Cutoff, Run, CountIn;
    if events != [] {
      var before, e := events[..|events| - 1], events[|events| - 1];
      CoveredIsKept(slo, before, good, window, now, hi);
      if e.Observe? {
        CutoffIsEarly(Run(slo, before).maxKeep, e.at, window, now);
        CountSplits(events, good, Epoch(now - window), 0, Min(Cutoff(Run(slo, before).maxKeep, e.at), hi));
      }
    }
  }

  lemma CoveredKeeps(slo: Slo, events: seq<Event>, window: int, now: int)
    requires Covered(slo, events, window, now)
    ensures Kept(slo, events, window, now)
  {
    CoveredIsKept(slo, events, true, window, now, Epoch(now));
    CoveredIsKept(slo, events, false, window, now, Epoch(now));
  }

  /** Burn rates from the trimmed buckets are those of the full log whenever the window was kept. */
  lemma BurnRateIsTrue(slo: Slo, events: seq<Event>, window: int, now: int, budget: real)
    requires Kept(slo, events, window, now)
    ensures BurnRate(Run(slo, events), window, now, budget) == TrueBurnRate(events, window, now, budget)
  {
    hide Epoch, SumIn, CountIn, Run;
    SumsAreCounts(slo, events, true, Epoch(now - window), Epoch(now));
    SumsAreCounts(slo, events, false, Epoch(now - window), Epoch(now));
  }

  function OnePair(window: int): Slo {
    Slo("s", 0.5, [WindowPair(window, window, 1.0, "page")])
  }

  lemma MinuteEpochs()
    ensures Epoch(0) == 0 && Epoch(2 * MINUTE) == 2 && Epoch(-8 * MINUTE) == -8
    ensures Cutoff(0, 0) == -1 && Cutoff(0, 2 * MINUTE) == 1
  {}

  lemma TwoObservations(slo: Slo, wide: Slo)
    requires MaxKeep(slo.pairs) == 0
    ensures var events := [Observe(false, 0), Observe(true, 2 * MINUTE), Register(wide)];
            && CountIn(events, true, -8, 2) == CountIn(events, false, -8, 2) == 1
            && !NothingLost(slo, events, false, -8, 2)
  {
    MinuteEpochs();
    hide Epoch, Cutoff, MaxKeep, Record;
    var e1, e2, e3 := [Observe(false, 0)], [Observe(false, 0), Observe(true, 2 * MINUTE)],
                      [Observe(false, 0), Observe(true, 2 * MINUTE), Register(wide)];
    assert e1[..0] == [] && e2[..1] == e1 && e3[..2] == e2;
    assert CountIn(e1, false, -8, 1) == 1 && CountIn(e2, false, -8, 1) == 1;
    assert CountIn(e1, false, -8, 2) == 1 && CountIn(e2, false, -8, 2) == 1;
    assert CountIn(e1, true, -8, 2) == 0 && CountIn(e2, true, -8, 2) == 1;
    KeepsRetention(Fresh(slo), Observe(false, 0));
    assert Run(slo, e1).maxKeep == 0;
    assert !NothingLost(slo, e2, false, -8, 2);
  }

  lemma KeepsRetention(s: Store, e: Event)
    requires e.Observe?
    ensures Apply(s, e).maxKeep == s.maxKeep
  {}

  /** A witness: re-registering with a longer window does not bring back what was trimmed. */
  lemma LongerWindowLosesHistory()
    ensures var events := [Observe(false, 0), Observe(true, 2 * MINUTE), Register(OnePair(10 * MINUTE))];
            && BurnRate(Run(OnePair(0), events), 10 * MINUTE, 2 * MINUTE, 0.5) == 0.0
            && TrueBurnRate(events, 10 * MINUTE, 2 * MINUTE, 0.5) == 1.0
  {
    var events := [Observe(false, 0), Observe(true, 2 * MINUTE), Register(OnePair(10 * MINUTE))];
    MinuteEpochs();
    TwoObservations(OnePair(0), OnePair(10 * MINUTE));
    assert MaxKeep(OnePair(0).pairs) == 0;
    hide Epoch, Run, CountIn, SumIn, NothingLost, OnePair;
    SumsAreCounts(OnePair(0), events, false, -8, 2);
    assert SumIn(Run(OnePair(0), events).bad, false, -8, 2) == 0;
  }

  // ---------- the decision ----------

  function Rank(severity: string): nat {
    if severity == "page" then 2 else if severity == "ticket" then 1 else 0
  }

  function ByRank(pairs: seq<WindowPair>, r: nat): seq<WindowPair> {
    if pairs == [] then []
    else
      var p := pairs[|pairs| - 1];
      ByRank(pairs[..|pairs| - 1], r) + if Rank(p.severity) == r then [p] else []
  }

  /** The stable sort by falling rank. */
  function Sorted(pairs: seq<WindowPair>): seq<WindowPair> {
    ByRank(pairs, 2) + ByRank(pairs, 1) + ByRank(pairs, 0)
  }

  datatype Decision = Decision(slo: string, severity: string, burnLong: real, burnShort: real,
          pair: WindowPair, errorBudget: real, at: int)

  const NoPair := WindowPair(0, 0, 0.0, "")

  function Initial(s: Store, now: int): Decision {
    Decision(s.slo.name, "ok", 0.0, 0.0, NoPair, ErrorBudget(s.slo), now)
  }

  function Long(s: Store, p: WindowPair, now: int): real {
    BurnRate(s, p.long, now, ErrorBudget(s.slo))
  }

  function Short(s: Store, p: WindowPair, now: int): real {
    BurnRate(s, p.short, now, ErrorBudget(s.slo))
  }

  predicate Trips(s: Store, p: WindowPair, now: int) {
    Long(s, p, now) >= p.burnRate && Short(s, p, now) >= p.burnRate
  }

  function Fired(s: Store, p: WindowPair, now: int): Decision {
    Initial(s, now).(severity := p.severity, burnLong := Long(s, p, now), burnShort := Short(s, p, now), pair := p)
  }

  /** One pair that does not trip: remember the loudest. */
  function Miss(s: Store, d: Decision, p: WindowPair, now: int): Decision {
    if d.burnLong < Long(s, p, now) then d.(burnLong := Long(s, p, now), burnShort := Short(s, p, now), pair := p) else d
  }

  /** The walk over the sorted pairs: stop at the first that trips. */
  function Walk(s: Store, pairs: seq<WindowPair>, now: int): (r: (Decision, bool)) {
    if pairs == [] then (Initial(s, now), false)
    else
      var before := Walk(s, pairs[..|pairs| - 1], now);
      var p := pairs[|pairs| - 1];
      if before.1 then before
      else if Trips(s, p, now) then (Fired(s, p, now), true)
      else (Miss(s, before.0, p, now), false)
  }

  /** The registered position of the pair that should fire within one rank: the earliest that trips. */
  function Winner(s: Store, pairs: seq<WindowPair>, r: nat, now: int): (k: Option<nat>)
    ensures k.Some? ==> k.value < |pairs| && Rank(pairs[k.value].severity) == r && Trips(s, pairs[k.value], now)
    ensures k.Some? ==> forall j | 0 <= j < k.value && Rank(pairs[j].severity) == r :: !Trips(s, pairs[j], now)
    ensures k == None ==> forall p <- pairs | Rank(p.severity) == r :: !Trips(s, p, now)
  {
    if pairs == [] then None
    else
      var p := pairs[|pairs| - 1];
      assert pairs == pairs[..|pairs| - 1] + [p];
      var k := Winner(s, pairs[..|pairs| - 1], r, now);
      if k.Some? then k
      else if Rank(p.severity) == r && Trips(s, p, now) then Some(|pairs| - 1)
      else None
  }

  lemma {:induction false} WalkStops(s: Store, a: seq<WindowPair>, b: seq<WindowPair>, now: int)
    requires Walk(s, a, now).1
    ensures Walk(s, a + b, now) == Walk(s, a, now)
  {
    if b == [] {
      assert a + b == a;
    } else {
      WalkStops(s, a, b[..|b| - 1], now);
      assert (a + b)[..|a + b| - 1] == a + b[..|b| - 1];
    }
  }

  /** A walk that goes on ends, on the second part, as a walk over the second part alone does. */
  lemma {:induction false} WalkGoesOn(s: Store, a: seq<WindowPair>, b: seq<WindowPair>, now: int)
    requires !Walk(s, a, now).1
    ensures Walk(s, a + b, now).1 == Walk(s, b, now).1
    ensures Walk(s, b, now).1 ==> Walk(s, a + b, now) == Walk(s, b, now)
  {
    hide Trips, Fired, Miss, Initial;
    if b == [] {
      assert a + b == a;
    } else {
      WalkGoesOn(s, a, b[..|b| - 1], now);
      assert (a + b)[..|a + b| - 1] == a + b[..|b| - 1];
    }
  }

  lemma {:induction false} WalkWithinRank(s: Store, pairs: seq<WindowPair>, r: nat, now: int)
    ensures Walk(s, ByRank(pairs, r), now).1 == Winner(s, pairs, r, now).Some?
    ensures var k := Winner(s, pairs, r, now);
            k.Some? ==> Walk(s, ByRank(pairs, r), now).0 == Fired(s, pairs[k.value], now)
  {
    hide Trips, Fired, Miss, Initial;
    if pairs != [] {
      var before, p := pairs[..|pairs| - 1], pairs[|pairs| - 1];
      WalkWithinRank(s, before, r, now);
      var mine := ByRank(before, r);
      if Rank(p.severity) == r {
        assert (mine + [p])[..|mine|] == mine;
      } else {
        assert mine + [] == mine;
      }
    }
  }

  /** Position k outranks every pair that trips, and is the earliest of its rank. */
  predicate IsBest(s: Store, pairs: seq<WindowPair>, k: nat, now: int)
    requires k < |pairs|
  {
    && Trips(s, pairs[k], now)
    && forall j | 0 <= j < |pairs| && Trips(s, pairs[j], now) ::
         Rank(pairs[j].severity) < Rank(pairs[k].severity) || (Rank(pairs[j].severity) == Rank(pairs[k].severity) && k <= j)
  }

  lemma WinnerIsBest(s: Store, pairs: seq<WindowPair>, r: nat, now: int)
    requires r <= 2 && Winner(s, pairs, r, now).Some?
    requires forall h: nat | r < h <= 2 :: Winner(s, pairs, h, now) == None
    ensures IsBest(s, pairs, Winner(s, pairs, r, now).value, now)
  {
    hide Trips;
    var k := Winner(s, pairs, r, now).value;
    forall j | 0 <= j < |pairs| && Rank(pairs[j].severity) > r ensures !Trips(s, pairs[j], now) {
      var h := Rank(pairs[j].severity);
      assert Winner(s, pairs, h, now) == None && pairs[j] in pairs;
    }
  }

  /** Evaluation fires the highest severity among the pairs that trip, earliest registered first,
      and reports ok exactly when none trips or the best has no known severity. */
  lemma EvaluateFiresTheBest(s: Store, now: int)
    ensures var d := Walk(s, Sorted(s.slo.pairs), now);
            var pairs := s.slo.pairs;
            && (d.1 <==> exists p <- pairs :: Trips(s, p, now))
            && (d.1 ==> exists k | 0 <= k < |pairs| :: IsBest(s, pairs, k, now) && d.0 == Fired(s, pairs[k], now))
  {
    var pairs := s.slo.pairs;
    var two, one, zero := ByRank(pairs, 2), ByRank(pairs, 1), ByRank(pairs, 0);
    hide Walk, ByRank, Winner, Trips, Fired;
    WalkWithinRank(s, pairs, 2, now);
    WalkWithinRank(s, pairs, 1, now);
    WalkWithinRank(s, pairs, 0, now);
    if Walk(s, two, now).1 {
      WalkStops(s, two, one, now);
      WalkStops(s, two + one, zero, now);
      WinnerIsBest(s, pairs, 2, now);
    } else {
      WalkGoesOn(s, two, one, now);
      if Walk(s, one, now).1 {
        WalkStops(s, two + one, zero, now);
        WinnerIsBest(s, pairs, 1, now);
      } else {
        WalkGoesOn(s, two + one, zero, now);
        if Walk(s, zero, now).1 {
          WinnerIsBest(s, pairs, 0, now);
        }
      }
    }
    forall p <- pairs | Trips(s, p, now) ensures exists r: nat | r <= 2 :: Winner(s, pairs, r, now).Some? {
      assert Winner(s, pairs, Rank(p.severity), now).Some?;
    }
  }

  lemma {:induction false} CoveredLess(slo: Slo, events: seq<Event>, window: int, wider: int, now: int)
    requires window <= wider && Covered(slo, events, wider, now)
    ensures Covered(slo, events, window, now)
  {
    if events != [] {
      CoveredLess(slo, events[..|events| - 1], window, wider, now);
    }
  }

  /** The true rates of a pair reach its threshold. */
  predicate TrulyTrips(events: seq<Event>, p: WindowPair, budget: real, now: int) {
    TrueBurnRate(events, p.long, now, budget) >= p.burnRate && TrueBurnRate(events, p.short, now, budget) >= p.burnRate
  }

  /** Position k outranks every pair that truly trips, and is the earliest of its rank. */
  predicate IsTrulyBest(events: seq<Event>, pairs: seq<WindowPair>, k: nat, budget: real, now: int)
    requires k < |pairs|
  {
    && TrulyTrips(events, pairs[k], budget, now)
    && forall j | 0 <= j < |pairs| && TrulyTrips(events, pairs[j], budget, now) ::
         Rank(pairs[j].severity) < Rank(pairs[k].severity) || (Rank(pairs[j].severity) == Rank(pairs[k].severity) && k <= j)
  }

  /** A pair whose windows were kept trips exactly when its true burn rates do. */
  lemma TripsOnTheTruth(slo: Slo, events: seq<Event>, p: WindowPair, now: int)
    requires Kept(slo, events, p.long, now) && Kept(slo, events, p.short, now)
    ensures var s := Run(slo, events);
            var budget := ErrorBudget(s.slo);
            && Long(s, p, now) == TrueBurnRate(events, p.long, now, budget)
            && Short(s, p, now) == TrueBurnRate(events, p.short, now, budget)
            && (Trips(s, p, now) <==> TrulyTrips(events, p, budget, now))
  {
    hide Run, Kept, BurnRate, TrueBurnRate;
    BurnRateIsTrue(slo, events, p.long, now, ErrorBudget(Run(slo, events).slo));
    BurnRateIsTrue(slo, events, p.short, now, ErrorBudget(Run(slo, events).slo));
  }

  /** After any run that kept the windows of every pair, the decision fires the highest severity
      among the pairs whose true burn rates trip, earliest registered first, with those rates. */
  lemma EvaluateOnTheTruth(slo: Slo, events: seq<Event>, now: int)
    requires forall p <- Run(slo, events).slo.pairs :: Kept(slo, events, p.long, now) && Kept(slo, events, p.short, now)
    ensures var s := Run(slo, events);
            var pairs, budget := s.slo.pairs, ErrorBudget(s.slo);
            var d := Walk(s, Sorted(pairs), now);
            && (d.1 <==> exists p <- pairs :: TrulyTrips(events, p, budget, now))
            && (d.1 ==> exists k | 0 <= k < |pairs| ::
                  IsTrulyBest(events, pairs, k, budget, now)
                  && d.0 == Initial(s, now).(severity := pairs[k].severity, pair := pairs[k],
                                             burnLong := TrueBurnRate(events, pairs[k].long, now, budget),
                                             burnShort := TrueBurnRate(events, pairs[k].short, now, budget)))
  {
    var s := Run(slo, events);
    var pairs, budget := s.slo.pairs, ErrorBudget(s.slo);
    hide Run, Kept, Walk, Sorted, Trips, TrulyTrips, Long, Short, TrueBurnRate, Initial;
    forall p <- pairs
      ensures Long(s, p, now) == TrueBurnRate(events, p.long, now, budget) && Short(s, p, now) == TrueBurnRate(events, p.short, now, budget)
      ensures Trips(s, p, now) <==> TrulyTrips(events, p, budget, now)
    {
      TripsOnTheTruth(slo, events, p, now);
    }
    EvaluateFiresTheBest(s, now);
    if Walk(s, Sorted(pairs), now).1 {
      var k :| 0 <= k < |pairs| && IsBest(s, pairs, k, now) && Walk(s, Sorted(pairs), now).0 == Fired(s, pairs[k], now);
      assert pairs[k] in pairs && forall j | 0 <= j < |pairs| :: pairs[j] in pairs;
      assert IsTrulyBest(events, pairs, k, budget, now);
    }
  }

  /** That holds whenever short windows do not exceed long ones, the retention always covered the
      longest window, and no observation is later than the evaluation. */
  lemma CoveredKeepsEveryPair(slo: Slo, events: seq<Event>, now: int)
    requires forall p <- Run(slo, events).slo.pairs :: p.short <= p.long
    requires Covered(slo, events, MaxKeep(Run(slo, events).slo.pairs), now)
    ensures forall p <- Run(slo, events).slo.pairs :: Kept(slo, events, p.long, now) && Kept(slo, events, p.short, now)
  {
    var pairs := Run(slo, events).slo.pairs;
    hide Run, Covered, Kept, Epoch;
    forall p <- pairs ensures Kept(slo, events, p.long, now) && Kept(slo, events, p.short, now) {
      CoveredLess(slo, events, p.long, MaxKeep(pairs), now);
      CoveredLess(slo, events, p.short, MaxKeep(pairs), now);
      CoveredKeeps(slo, events, p.long, now);
      CoveredKeeps(slo, events, p.short, now);
    }
  }

  /** When nothing fires, the decision records the loudest long-window rate. */
  lemma {:induction false} MissIsLoudest(s: Store, pairs: seq<WindowPair>, now: int)
    requires !Walk(s, pairs, now).1
    ensures var d := Walk(s, pairs, now).0;
            && d.severity == "ok"
            && (forall p <- pairs :: Long(s, p, now) <= d.burnLong)
            && (d == Initial(s, now) || exists p <- pairs ::
                  d == Initial(s, now).(burnLong := Long(s, p, now), burnShort := Short(s, p, now), pair := p))
  {
    hide Long, Short;
    if pairs != [] {
      var before, p := pairs[..|pairs| - 1], pairs[|pairs| - 1];
      MissIsLoudest(s, before, now);
      assert pairs == before + [p];
    }
  }

  // ---------- the evaluator object ----------

  class SloState {
    ghost const name: string
    var slo: Slo
    var maxKeep: int
    var good: seq<Bucket>
    var bad: seq<Bucket>

    constructor (slo: Slo, maxKeep: int)
      ensures name == slo.name && Value() == Store(slo, maxKeep, [], [])
    {
      name := slo.name;
      this.slo, this.maxKeep, good, bad := slo, maxKeep, [], [];
    }

    function Value(): Store
      reads this
    {
      Store(slo, maxKeep, good, bad)
    }

    method Redefine(slo: Slo, maxKeep: int)
      requires maxKeep == MaxKeep(slo.pairs)
      modifies `slo, `maxKeep
      ensures Value() == Apply(old(Value()), Register(slo))
    {
      this.slo, this.maxKeep := slo, maxKeep;
    }

    method Observe(isGood: bool, at: int)
      modifies `good, `bad
      ensures Value() == Record(old(Value()), isGood, at)
    {
      var epoch := Epoch(at);
      if isGood {
        good := AddToBucket(good, epoch, 1, 0);
      } else {
        bad := AddToBucket(bad, epoch, 0, 1);
      }
      var cutoff := Cutoff(maxKeep, at);
      good := TrimOlder(good, cutoff);
      bad := TrimOlder(bad, cutoff);
    }

    method Rate(window: int, now: int, budget: real) returns (rate: real)
      ensures rate == BurnRate(Value(), window, now, budget)
    {
      if budget <= 0.0 {
        return 0.0;
      }
      var cutoff, end := Epoch(now - window), Epoch(now);
      var g := SumBuckets(good, true, cutoff, end);
      var b := SumBuckets(bad, false, cutoff, end);
      if g + b == 0 {
        return 0.0;
      }
      return b as real / (g + b) as real / budget;
    }

    method Decide(now: int) returns (d: Decision)
      ensures d == Walk(Value(), Sorted(slo.pairs), now).0
    {
      hide BurnRate, Sorted;
      var pairs := Sorted(slo.pairs);
      d := Initial(Value(), now);
      var i := 0;
      while i < |pairs|
        invariant 0 <= i <= |pairs| && Walk(Value(), pairs[..i], now) == (d, false)
      {
        assert pairs[..i + 1][..i] == pairs[..i];
        var p := pairs[i];
        var long := Rate(p.long, now, ErrorBudget(slo));
        var short := Rate(p.short, now, ErrorBudget(slo));
        if long >= p.burnRate && short >= p.burnRate {
          d := Initial(Value(), now).(severity := p.severity, burnLong := long, burnShort := short, pair := p);
          WalkStops(Value(), pairs[..i + 1], pairs[i + 1..], now);
          assert pairs[..i + 1] + pairs[i + 1..] == pairs;
          return;
        }
        if d.burnLong < long {
          d := d.(burnLong := long, burnShort := short, pair := p);
        }
        i := i + 1;
      }
      assert pairs[..i] == pairs;
    }
  }

  class Evaluator {
    var slos: map<string, SloState>

    constructor ()
      ensures Valid() && slos == map[]
    {
      slos := map[];
    }

    ghost predicate Valid()
      reads this
    {
      forall n <- slos :: slos[n].name == n
    }

    ghost function View(): map<string, Store>
      reads this, slos.Values
    {
      map n <- slos :: slos[n].Value()
    }

    /** Re-registering keeps the counters. */
    method RegisterSlo(slo: Slo) returns (ok: bool)
      requires Valid()
      modifies this, slos.Values
      ensures Valid() && fresh(slos.Values - old(slos.Values)) && ok == IsValid(slo)
      ensures View() == if !ok then old(View())
                        else old(View())[slo.name :=
                          if slo.name in old(View()) then Apply(old(View())[slo.name], Register(slo)) else Fresh(slo)]
    {
      if !IsValid(slo) {
        return false;
      }
      hide MaxKeep, IsValid, Apply;
      var maxKeep := LongestWindow(slo.pairs);
      if slo.name in slos {
        var s := slos[slo.name];
        s.Redefine(slo, maxKeep);
        return true;
      }
      var s := new SloState(slo, maxKeep);
      slos := slos[slo.name := s];
      return true;
    }

    method Observe(name: string, good: bool, at: int) returns (ok: bool)
      requires Valid()
      modifies slos.Values
      ensures Valid() && ok == (name in slos)
      ensures View() == if ok then old(View())[name := Record(old(View())[name], good, at)] else old(View())
    {
      hide Record;
      if name !in slos {
        return false;
      }
      slos[name].Observe(good, at);
      return true;
    }

    method Evaluate(name: string, now: int) returns (d: Option<Decision>)
      requires Valid()
      ensures d == if name in slos then Some(Walk(View()[name], Sorted(View()[name].slo.pairs), now).0) else None
    {
      if name !in slos {
        return None;
      }
      var decision := slos[name].Decide(now);
      return Some(decision);
    }
  }
}
