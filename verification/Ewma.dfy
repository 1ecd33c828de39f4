/** Exponentially weighted mean and variance over real numbers: the incremental update of
    pkg/sampling/ewma.go, pkg/mlruntime/zscore.go and the anomaly detector, against the closed-form
    weighted sums, and the bound it puts on the score of the newest sample. */
module Ewma {

  datatype Series = Series(mean: real, vari: real, count: nat)

  const Empty := Series(0.0, 0.0, 0)

  predicate IsWeight(a: real) {
    0.0 < a <= 1.0
  }

  /** One incremental update of a mean and variance. */
  function Moved(s: Series, x: real, a: real): Series {
    var diff := x - s.mean;
    Series(s.mean + a * diff, (1.0 - a) * (s.vari + a * diff * diff), s.count + 1)
  }

  /** The same, but the first sample seeds the mean. */
  function Update(s: Series, x: real, a: real): Series {
    if s.count == 0 then Series(x, s.vari, 1) else Moved(s, x, a)
  }

  function Fold(xs: seq<real>, a: real): Series {
    if xs == [] then Empty else Update(Fold(xs[..|xs| - 1], a), xs[|xs| - 1], a)
  }

  // ---------- the closed form ----------

  function Pow(b: real, n: nat): real {
    if n == 0 then 1.0 else b * Pow(b, n - 1)
  }

  /** The weight of sample k out of n. */
  function Weight(k: nat, n: nat, a: real): real
    requires k < n
  {
    if k == 0 then Pow(1.0 - a, n - 1) else a * Pow(1.0 - a, n - 1 - k)
  }

  /** The functions of a sample that are averaged. */
  datatype Statistic = One | Value | Square | SquareAbout(centre: real)
  {
    function Of(x: real): real {
      match this
      case One => 1.0
      case Value => x
      case Square => x * x
      case SquareAbout(c) => (x - c) * (x - c)
    }
  }

  function Term(xs: seq<real>, f: Statistic, k: nat, n: nat, a: real): real
    requires k < n && k < |xs|
  {
    Weight(k, n, a) * f.Of(xs[k])
  }

  /** The weighted sum of a statistic over the first k of n samples. */
  function WeightedSum(xs: seq<real>, f: Statistic, k: nat, n: nat, a: real): real
    requires k <= n && k <= |xs|
  {
    if k == 0 then 0.0 else WeightedSum(xs, f, k - 1, n, a) + Term(xs, f, k - 1, n, a)
  }

  function Expect(xs: seq<real>, f: Statistic, a: real): real {
    WeightedSum(xs, f, |xs|, |xs|, a)
  }

  function WeightedMean(xs: seq<real>, a: real): real {
    Expect(xs, Value, a)
  }

  function WeightedVariance(xs: seq<real>, a: real): real {
    Expect(xs, SquareAbout(WeightedMean(xs, a)), a)
  }

  function Scaled(c: real, y: real): real {
    c * y
  }

  lemma WeightShrinks(k: nat, n: nat, a: real)
    requires k < n
    ensures Weight(k, n + 1, a) == (1.0 - a) * Weight(k, n, a)
  {
    if k > 0 {
      var p := Pow(1.0 - a, n - 1 - k);
      assert Pow(1.0 - a, n - k) == (1.0 - a) * p;
      Swap(a, 1.0 - a, p);
    }
  }

  lemma Swap(a: real, b: real, p: real)
    ensures a * (b * p) == b * (a * p)
  {}

  lemma TermShrinks(xs: seq<real>, f: Statistic, k: nat, a: real, last: real)
    requires k < |xs|
    ensures Term(xs + [last], f, k, |xs| + 1, a) == Scaled(1.0 - a, Term(xs, f, k, |xs|, a))
  {
    hide Statistic.Of;
    WeightShrinks(k, |xs|, a);
    hide Weight;
    var w, y := Weight(k, |xs|, a), f.Of(xs[k]);
    assert ((1.0 - a) * w) * y == (1.0 - a) * (w * y);
  }

  lemma {:induction false} SumShrinks(xs: seq<real>, f: Statistic, k: nat, a: real, last: real)
    requires k <= |xs|
    ensures WeightedSum(xs + [last], f, k, |xs| + 1, a) == Scaled(1.0 - a, WeightedSum(xs, f, k, |xs|, a))
  {
    if k > 0 {
      SumShrinks(xs, f, k - 1, a, last);
      TermShrinks(xs, f, k - 1, a, last);
      hide Term, Scaled;
      Together(1.0 - a, WeightedSum(xs, f, k - 1, |xs|, a), Term(xs, f, k - 1, |xs|, a));
    } else {
      assert Scaled(1.0 - a, 0.0) == 0.0;
    }
  }

  lemma Together(c: real, s: real, t: real)
    ensures Scaled(c, s) + Scaled(c, t) == Scaled(c, s + t)
  {}

  lemma LastTerm(xs: seq<real>, f: Statistic, a: real, x: real)
    ensures Term(xs + [x], f, |xs|, |xs| + 1, a) == if xs == [] then f.Of(x) else Scaled(a, f.Of(x))
  {
    assert Weight(|xs|, |xs| + 1, a) == if xs == [] then 1.0 else a;
  }

  /** One more sample: every old weight shrinks by 1 - a and the new sample weighs a. */
  lemma ExpectMore(xs: seq<real>, f: Statistic, a: real, x: real)
    ensures xs == [] ==> Expect(xs + [x], f, a) == f.Of(x)
    ensures xs != [] ==> Expect(xs + [x], f, a) == Scaled(1.0 - a, Expect(xs, f, a)) + Scaled(a, f.Of(x))
  {
    hide Statistic.Of, Term, Scaled;
    SumShrinks(xs, f, |xs|, a, x);
    LastTerm(xs, f, a, x);
    assert WeightedSum(xs + [x], f, 0, |xs| + 1, a) == 0.0;
  }

  /** The weights of any number of samples sum to one. */
  lemma {:induction false} WeightsSumToOne(xs: seq<real>, a: real)
    requires xs != []
    ensures Expect(xs, One, a) == 1.0
  {
    var before, x := xs[..|xs| - 1], xs[|xs| - 1];
    assert xs == before + [x];
    ExpectMore(before, One, a, x);
    if before != [] {
      WeightsSumToOne(before, a);
    }
  }

  function Gap(s: Series, c: real): real {
    s.vari + (s.mean - c) * (s.mean - c)
  }

  /** The weighted sum of squares about any centre is the variance plus the squared distance. */
  lemma {:induction false} SpreadAbout(xs: seq<real>, a: real, c: real)
    requires xs != []
    ensures Expect(xs, SquareAbout(c), a) == Gap(Fold(xs, a), c)
    ensures Expect(xs, Value, a) == Fold(xs, a).mean && Fold(xs, a).count == |xs|
  {
    hide Expect, Gap, Scaled, Update;
    var before, x := xs[..|xs| - 1], xs[|xs| - 1];
    assert xs == before + [x];
    ExpectMore(before, SquareAbout(c), a, x);
    ExpectMore(before, Value, a, x);
    assert Fold(xs, a) == Update(Fold(before, a), x, a);
    if before != [] {
      hide Fold, Statistic.Of;
      SpreadAbout(before, a, c);
      SpreadStep(Fold(before, a), a, c, x);
      MeanStep(Fold(before, a), a, x);
    } else {
      SpreadOfOne(a, c, x);
    }
  }

  lemma SpreadOfOne(a: real, c: real, x: real)
    ensures Update(Empty, x, a) == Series(x, 0.0, 1) && SquareAbout(c).Of(x) == Gap(Series(x, 0.0, 1), c)
  {}

  lemma SpreadStep(s: Series, a: real, c: real, x: real)
    requires s.count > 0
    ensures Scaled(1.0 - a, Gap(s, c)) + Scaled(a, SquareAbout(c).Of(x)) == Gap(Update(s, x, a), c)
  {
    Polynomial(a, s.vari, s.mean, c, x);
  }

  lemma Polynomial(a: real, v: real, m: real, c: real, x: real)
    ensures (1.0 - a) * (v + (m - c) * (m - c)) + a * ((x - c) * (x - c)) ==
            (1.0 - a) * (v + a * (x - m) * (x - m)) + (m + a * (x - m) - c) * (m + a * (x - m) - c)
  {}

  lemma MeanStep(s: Series, a: real, x: real)
    requires s.count > 0
    ensures Scaled(1.0 - a, s.mean) + Scaled(a, Value.Of(x)) == Update(s, x, a).mean
    ensures Update(s, x, a).count == s.count + 1
  {}

  /** The incremental mean and variance are the weighted mean and the weighted variance. */
  lemma FoldIsClosedForm(xs: seq<real>, a: real)
    requires xs != []
    ensures Fold(xs, a) == Series(WeightedMean(xs, a), WeightedVariance(xs, a), |xs|)
  {
    hide Expect, Fold;
    SpreadAbout(xs, a, WeightedMean(xs, a));
    assert Fold(xs, a).mean - WeightedMean(xs, a) == 0.0;
  }

  // ---------- bounds ----------

  lemma NonNegative(c: real, x: real)
    requires c >= 0.0 && x >= 0.0
    ensures c * x >= 0.0
  {}

  lemma MixGap(a: real, p: real, q: real, edge: real)
    ensures p + a * (q - p) - edge == (1.0 - a) * (p - edge) + a * (q - edge)
    ensures edge - (p + a * (q - p)) == (1.0 - a) * (edge - p) + a * (edge - q)
  {}

  lemma Mix(a: real, p: real, q: real, lo: real, hi: real)
    requires IsWeight(a) && lo <= p <= hi && lo <= q <= hi
    ensures lo <= p + a * (q - p) <= hi
  {
    MixGap(a, p, q, lo);
    MixGap(a, p, q, hi);
    NonNegative(1.0 - a, p - lo);
    NonNegative(a, q - lo);
    NonNegative(1.0 - a, hi - p);
    NonNegative(a, hi - q);
  }

  lemma VarianceStays(s: Series, x: real, a: real)
    requires IsWeight(a) && s.vari >= 0.0
    ensures Update(s, x, a).vari >= 0.0
  {
    var diff := x - s.mean;
    NonNegative(a, diff * diff);
    assert a * diff * diff == a * (diff * diff);
    NonNegative(1.0 - a, s.vari + a * diff * diff);
  }

  lemma UpdateBounds(s: Series, x: real, a: real, lo: real, hi: real)
    requires IsWeight(a) && s.count > 0 && lo <= s.mean <= hi && lo <= x <= hi && s.vari >= 0.0
    ensures lo <= Update(s, x, a).mean <= hi && Update(s, x, a).vari >= 0.0 && Update(s, x, a).count == s.count + 1
  {
    VarianceStays(s, x, a);
    assert Update(s, x, a).mean == s.mean + a * (x - s.mean);
    assert Update(s, x, a).count == s.count + 1;
    hide Update;
    Mix(a, s.mean, x, lo, hi);
  }

  /** The mean stays between the least and the greatest sample, and the variance is never negative. */
  lemma {:induction false} FoldBounds(xs: seq<real>, a: real, lo: real, hi: real)
    requires IsWeight(a) && xs != [] && forall x <- xs :: lo <= x <= hi
    ensures lo <= Fold(xs, a).mean <= hi && Fold(xs, a).vari >= 0.0 && Fold(xs, a).count == |xs|
  {
    var before, x := xs[..|xs| - 1], xs[|xs| - 1];
    assert x in xs && forall y <- before :: y in xs;
    if before != [] {
      FoldBounds(before, a, lo, hi);
      hide Update;
      UpdateBounds(Fold(before, a), x, a, lo, hi);
    }
  }

  /** After every update the newest sample is within sqrt((1-a)/a) standard deviations. */
  lemma NewestIsClose(s: Series, x: real, a: real)
    requires IsWeight(a) && s.vari >= 0.0 && (s.count == 0 ==> s.vari == 0.0)
    ensures var n := Update(s, x, a); a * ((x - n.mean) * (x - n.mean)) <= (1.0 - a) * n.vari
  {
    if s.count > 0 {
      var n, diff, b := Update(s, x, a), x - s.mean, 1.0 - a;
      assert x - n.mean == b * diff;
      assert a * ((b * diff) * (b * diff)) == b * (b * (a * diff * diff));
      assert b * (b * s.vari) >= 0.0;
      assert b * n.vari == b * (b * s.vari) + b * (b * (a * diff * diff));
    }
  }

  // ---------- a spike after silence ----------

  function Zeros(n: nat): (r: seq<real>)
    ensures |r| == n
  {
    seq(n, i => 0.0)
  }

  lemma {:induction false} SilenceIsFlat(n: nat, a: real)
    ensures Fold(Zeros(n), a) == Series(0.0, 0.0, n)
  {
    if n > 0 {
      SilenceIsFlat(n - 1, a);
      assert Zeros(n)[..n - 1] == Zeros(n - 1);
    }
  }

  /** The bound is reached: after silence, a spike is exactly at it. */
  lemma SpikeIsExtreme(n: nat, x: real, a: real)
    requires n > 0
    ensures var s := Fold(Zeros(n) + [x], a);
            && s == Series(a * x, (1.0 - a) * (a * x * x), n + 1)
            && a * ((x - s.mean) * (x - s.mean)) == (1.0 - a) * s.vari
  {
    SilenceIsFlat(n, a);
    assert (Zeros(n) + [x])[..n] == Zeros(n);
    assert x - a * x == (1.0 - a) * x;
    assert a * (((1.0 - a) * x) * ((1.0 - a) * x)) == (1.0 - a) * ((1.0 - a) * (a * x * x));
  }
}
