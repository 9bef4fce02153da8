/** What a scenario run promises, proved about the functions of module ScenarioModel. */
module ScenarioProperties {
  import opened Sums
  import opened Inflation
  import opened Positions
  import opened PortfolioModel
  import opened ScenarioModel

  // ---------------------------------------------------------------------------------------
  // Inflation correction

  /** The corrected return of a year and its nominal return obey the Fisher relation
      `(1 + corrected) * (1 + inflation) == 1 + nominal`; the corrected return is 0 when the
      year started from nothing. */
  lemma CorrectedReturnFisher(prev: real, value: real, year: nat, rate: real)
    requires year > 0 && rate > -1.0
    ensures prev > 0.0 ==>
      (1.0 + CorrectedReturn(prev, value, year, rate)) * (1.0 + rate) == 1.0 + Growth(prev, value)
    ensures prev <= 0.0 ==> CorrectedReturn(prev, value, year, rate) == 0.0
  {
    if prev > 0.0 {
      var p := Pow(1.0 + rate, year - 1);
      PowPositive(1.0 + rate, year - 1);
      assert Pow(1.0 + rate, year) == (1.0 + rate) * p;
      FisherArithmetic(prev, value, rate, p, PresentValue(prev, year - 1, rate), PresentValue(value, year, rate));
    }
  }

  /** The arithmetic behind the Fisher relation. */
  lemma FisherArithmetic(prev: real, value: real, rate: real, p: real, correctedPrev: real, corrected: real)
    requires prev > 0.0 && p > 0.0 && 1.0 + rate > 0.0
    requires correctedPrev * p == prev
    requires corrected * ((1.0 + rate) * p) == value
    ensures (1.0 + Growth(correctedPrev, corrected)) * (1.0 + rate) == 1.0 + Growth(prev, value)
  {
    assert correctedPrev > 0.0;
    var g := Growth(correctedPrev, corrected);
    assert (1.0 + g) * correctedPrev == corrected;
    calc {
      (1.0 + g) * (1.0 + rate) * prev;
      (1.0 + g) * (1.0 + rate) * (correctedPrev * p);
      ((1.0 + g) * correctedPrev) * ((1.0 + rate) * p);
      corrected * ((1.0 + rate) * p);
      value;
      (1.0 + Growth(prev, value)) * prev;
    }
  }

  /** The corrected and nominal returns of a year obey the Fisher relation
      `(1 + corrected) * (1 + inflation) == 1 + nominal`, and both are 0 after a year that
      started from nothing. */
  lemma ReturnsRelation(s: ScenarioState, rate: real, rebalance: bool, startYear: nat, noise: Noise)
    requires Consistent(s) && rate > -1.0
    ensures var r := BaseStep(s, rate, rebalance, startYear, noise);
      && (Total(s.portfolio) > 0.0 ==> Fisher(Last(r.yearlyReturns), Last(r.uncorrectedReturns), rate))
      && (Total(s.portfolio) == 0.0 ==> Last(r.yearlyReturns) == 0.0 && Last(r.uncorrectedReturns) == 0.0)
  {
    var year := |s.history| + startYear;
    var grown := Simulated(s.portfolio, noise(year));
    var after := Settled(grown, rebalance);
    SameAssetsTransitive(s.portfolio, grown, after);
    RecordedReturns(s, after, year, Total(s.portfolio), Total(grown), rate);
  }

  /** `(1 + corrected) * (1 + inflation) == 1 + nominal`: the real return, compounded with
      inflation, is the nominal return. */
  predicate Fisher(corrected: real, nominal: real, rate: real)
  {
    (1.0 + corrected) * (1.0 + rate) == 1.0 + nominal
  }

  /** The returns the record of a year appends obey the Fisher relation. */
  lemma RecordedReturns(s: ScenarioState, after: PortfolioState, year: nat, prev: real, value: real, rate: real)
    requires Consistent(s) && WellFormed(after) && SameAssets(s.portfolio, after)
    requires year > 0 && rate > -1.0
    ensures var r := Recorded(s, after, year, prev, value, rate);
      && (prev > 0.0 ==> Fisher(Last(r.yearlyReturns), Last(r.uncorrectedReturns), rate))
      && (prev <= 0.0 ==> Last(r.yearlyReturns) == 0.0 && Last(r.uncorrectedReturns) == 0.0)
  {
    CorrectedReturnFisher(prev, value, year, rate);
  }

  // ---------------------------------------------------------------------------------------
  // Contributions

  /** The glide-path rebalance keeps the total and the contribution is a deposit: before the
      year's growth the portfolio has gained exactly that year's contribution. */
  lemma PreparedAddsContribution(cfg: Settings, s: ScenarioState, x: nat)
    requires Runnable(cfg, s) && x < cfg.numYears
    requires s.portfolio.positions != [] && Contribution(cfg, x) >= 0.0
    ensures Total(Prepared(cfg, s, x).portfolio) == Total(s.portfolio) + Contribution(cfg, x)
  {
    var p := s.portfolio;
    var p1 := if cfg.glide.Some? then Rebalanced(p, GlideWeights(cfg.glide.value, x)) else p;
    if cfg.glide.Some? {
      RebalanceConserves(p, GlideWeights(cfg.glide.value, x));
    }
    if Contribution(cfg, x) != 0.0 {
      DepositAddsAmount(p1, Contribution(cfg, x));
    }
  }

  /** Each year's contribution is the previous one grown by the yearly increase. */
  lemma ContributionGrows(cfg: Settings, x: nat)
    ensures Contribution(cfg, x + 1) == Contribution(cfg, x) * (1.0 + cfg.additionIncrease)
  {
    var b := 1.0 + cfg.additionIncrease;
    assert Pow(b, x + 2) == b * Pow(b, x + 1);
  }

  // ---------------------------------------------------------------------------------------
  // Glide path

  /** The glide path starts at the portfolio's weights and reaches the raw end weights in the
      last iteration, x = num_years - 1. */
  lemma GlideEndpoints(start: seq<real>, end: seq<real>, n: nat)
    requires |end| == |start| && n >= 2
    ensures var g := Glide(start, GlideSlopes(start, end, n));
      GlideWeights(g, 0) == start && GlideWeights(g, n - 1) == end
  {
    var g := Glide(start, GlideSlopes(start, end, n));
    forall i | 0 <= i < |start|
      ensures GlideWeights(g, n - 1)[i] == end[i]
    {
      assert ((n - 1) as nat) as real == n as real - 1.0;
    }
  }

  /** Each weight of year x is the blend `(1 - a) * start + a * end` with `a = x / (n - 1)`. */
  lemma GlideBlend(start: real, end: real, n: nat, x: nat)
    requires n >= 2
    ensures Interpolated(start, Slope(start, end, n), x)
      == (1.0 - x as real / (n as real - 1.0)) * start + (x as real / (n as real - 1.0)) * end
  {
  }

  /** A weight moves steadily toward its end value: up if the end weight is larger, down if
      it is smaller, and not at all if the two agree. */
  lemma GlideMonotone(start: seq<real>, end: seq<real>, n: nat, x: nat, y: nat)
    requires |end| == |start| && n >= 2 && x < y
    ensures var g := Glide(start, GlideSlopes(start, end, n));
      forall i :: 0 <= i < |start| ==>
        && (start[i] < end[i] ==> GlideWeights(g, x)[i] < GlideWeights(g, y)[i])
        && (start[i] > end[i] ==> GlideWeights(g, x)[i] > GlideWeights(g, y)[i])
        && (start[i] == end[i] ==> GlideWeights(g, x)[i] == GlideWeights(g, y)[i])
  {
    var g := Glide(start, GlideSlopes(start, end, n));
    forall i | 0 <= i < |start|
      ensures && (start[i] < end[i] ==> GlideWeights(g, x)[i] < GlideWeights(g, y)[i])
              && (start[i] > end[i] ==> GlideWeights(g, x)[i] > GlideWeights(g, y)[i])
              && (start[i] == end[i] ==> GlideWeights(g, x)[i] == GlideWeights(g, y)[i])
    {
      SlopeSign(start[i], end[i], n);
      ScaleStrict(g.slopes[i], x as real, y as real);
    }
  }

  lemma SlopeSign(start: real, end: real, n: nat)
    requires n >= 2
    ensures (Slope(start, end, n) > 0.0 <==> start < end) && (Slope(start, end, n) == 0.0 <==> start == end)
  {
  }

  lemma ScaleStrict(c: real, a: real, b: real)
    requires a < b
    ensures (c > 0.0 ==> c * a < c * b) && (c < 0.0 ==> c * a > c * b) && (c == 0.0 ==> c * a == c * b)
  {
  }

  /** A glide from a normalised start to non-negative end weights that do not all vanish
      never asks `set_weights` for a negative weight or for weights summing to zero. */
  lemma {:induction false} GlideStaysAcceptable(start: seq<real>, end: seq<real>, n: nat)
    requires |end| == |start| && n >= 2
    requires NonNegative(start) && start != [] && Sum(start) == 1.0
    requires NonNegative(end) && Sum(end) > 0.0
    ensures var g := Glide(start, GlideSlopes(start, end, n));
      forall x: nat :: x < n ==> AcceptableWeights(GlideWeights(g, x), |start|)
  {
    forall x: nat | x < n
      ensures AcceptableWeights(GlideWeights(Glide(start, GlideSlopes(start, end, n)), x), |start|)
    {
      GlideYearAcceptable(start, end, n, x);
    }
  }

  /** The weights of one year of the glide are a convex blend of the start and end weights,
      so none is negative and their sum `(1 - a) * 1 + a * sum(end)` is positive. */
  lemma GlideYearAcceptable(start: seq<real>, end: seq<real>, n: nat, x: nat)
    requires |end| == |start| && n >= 2 && x < n
    requires NonNegative(start) && start != [] && Sum(start) == 1.0
    requires NonNegative(end) && Sum(end) > 0.0
    ensures AcceptableWeights(GlideWeights(Glide(start, GlideSlopes(start, end, n)), x), |start|)
  {
    GlideYearBlend(start, end, n, x);
    ConvexAcceptable(start, end, GlideWeights(Glide(start, GlideSlopes(start, end, n)), x), BlendShare(n, x));
  }

  /** Every weight of iteration x is the blend of its start and end weight at `x / (n - 1)`. */
  lemma GlideYearBlend(start: seq<real>, end: seq<real>, n: nat, x: nat)
    requires |end| == |start| && n >= 2 && x < n
    requires NonNegative(start) && NonNegative(end)
    ensures BlendOf(GlideWeights(Glide(start, GlideSlopes(start, end, n)), x), start, end, BlendShare(n, x))
  {
    forall i | 0 <= i < |start|
      ensures var w := GlideWeights(Glide(start, GlideSlopes(start, end, n)), x);
        w[i] == (1.0 - BlendShare(n, x)) * start[i] + BlendShare(n, x) * end[i] && w[i] >= 0.0
    {
      GlideEntryAt(start, end, n, x, i);
    }
  }

  /** `w` is the non-negative pointwise blend `(1 - a) * start + a * end`. */
  ghost predicate BlendOf(w: seq<real>, start: seq<real>, end: seq<real>, a: real)
    requires |end| == |start| == |w|
  {
    forall i :: 0 <= i < |w| ==> w[i] == (1.0 - a) * start[i] + a * end[i] && w[i] >= 0.0
  }

  /** A non-negative pointwise blend `(1 - a) * start + a * end` of weights summing to one
      and non-negative weights with a positive sum is acceptable to `set_weights`. */
  lemma ConvexAcceptable(start: seq<real>, end: seq<real>, w: seq<real>, a: real)
    requires |end| == |start| == |w| && 0.0 <= a <= 1.0
    requires Sum(start) == 1.0 && Sum(end) > 0.0
    requires BlendOf(w, start, end, a)
    ensures AcceptableWeights(w, |start|)
  {
    var u := Scaled(start, 1.0 - a);
    var v := Scaled(end, a);
    SumPointwise(u, v, w);
    ConvexPositive(a, Sum(end));
  }

  lemma GlideEntryAt(start: seq<real>, end: seq<real>, n: nat, x: nat, i: nat)
    requires |end| == |start| && n >= 2 && x < n && i < |start|
    requires start[i] >= 0.0 && end[i] >= 0.0
    ensures var a := BlendShare(n, x);
      var w := GlideWeights(Glide(start, GlideSlopes(start, end, n)), x);
      w[i] == (1.0 - a) * start[i] + a * end[i] && w[i] >= 0.0
  {
    var slopes := GlideSlopes(start, end, n);
    assert slopes[i] == Slope(start[i], end[i], n);
    var w := GlideWeights(Glide(start, slopes), x);
    assert w[i] == Interpolated(start[i], Slope(start[i], end[i], n), x);
    GlideEntry(start[i], end[i], n, x);
  }

  /** How far along the glide iteration x is: `x / (n - 1)`, between 0 and 1. */
  function BlendShare(n: nat, x: nat): (a: real)
    requires n >= 2 && x < n
    ensures 0.0 <= a <= 1.0 && a * (n as real - 1.0) == x as real
  {
    x as real / (n as real - 1.0)
  }

  /** One weight of the glide is `(1 - a) * start + a * end`, and so is non-negative when
      both ends are. */
  lemma GlideEntry(start: real, end: real, n: nat, x: nat)
    requires n >= 2 && x < n && start >= 0.0 && end >= 0.0
    ensures var a := BlendShare(n, x);
      var w := Interpolated(start, Slope(start, end, n), x);
      w == (1.0 - a) * start + a * end && w >= 0.0
  {
    var a := BlendShare(n, x);
    GlideBlend(start, end, n, x);
    assert (1.0 - a) * start >= 0.0 && a * end >= 0.0 by {
      NonNegativeProduct(1.0 - a, start);
      NonNegativeProduct(a, end);
    }
  }

  lemma NonNegativeProduct(a: real, b: real)
    requires a >= 0.0 && b >= 0.0
    ensures a * b >= 0.0
  {
  }

  lemma ConvexPositive(a: real, t: real)
    requires 0.0 <= a <= 1.0 && t > 0.0
    ensures (1.0 - a) * 1.0 + a * t > 0.0
  {
    if a > 0.0 {
      assert a * t > 0.0;
    }
  }

  // ---------------------------------------------------------------------------------------
  // Reset and rerun

  /** A run from a fresh scenario records `num_years + 1` snapshots (and `num_years` returns
      of each kind) and keeps the starting snapshot in front. */
  lemma RunFromFresh(cfg: Settings, p: PortfolioState, noise: Noise)
    requires Runnable(cfg, Fresh(p))
    ensures var r := Run(cfg, Fresh(p), noise);
      && |r.history| == |r.uncorrected| == cfg.numYears + 1
      && |r.yearlyReturns| == |r.uncorrectedReturns| == cfg.numYears
      && r.history[0] == r.uncorrected[0] == p
  {
    var r := Run(cfg, Fresh(p), noise);
    assert [p] <= r.history && [p] <= r.uncorrected;
  }

  /** Running never touches the starting snapshot, so a reset after a run lands where a reset
      before it would have. */
  lemma ResetAfterRun(cfg: Settings, s: ScenarioState, startYear: nat, noise: Noise, k: nat)
    requires Runnable(cfg, s) && k <= cfg.numYears
    ensures ResetState(RunYears(cfg, s, startYear, noise, k)) == ResetState(s)
  {
    var r := RunYears(cfg, s, startYear, noise, k);
    assert s.history <= r.history;
    assert r.history[0] == s.history[0];
  }

  /** Resetting twice is resetting once. */
  lemma ResetIdempotent(s: ScenarioState)
    requires Consistent(s)
    ensures ResetState(ResetState(s)) == ResetState(s)
  {
  }

  /** `reset(); run()` can be repeated: a second reset and run produce exactly what one reset
      and run with the same draws produce, whatever the first run drew. */
  lemma RerunAfterReset(cfg: Settings, s: ScenarioState, first: Noise, second: Noise)
    requires Runnable(cfg, s)
    ensures Runnable(cfg, ResetState(s))
    ensures var once := Run(cfg, ResetState(s), first);
      Run(cfg, ResetState(once), second) == Run(cfg, ResetState(s), second)
  {
    ResetAfterRun(cfg, ResetState(s), 0, first, cfg.numYears);
  }

  // ---------------------------------------------------------------------------------------
  // Determinism

  /** When no position is volatile the draws play no part: a year of the run is the same
      whatever was drawn. */
  lemma StepWithoutVolatility(cfg: Settings, s: ScenarioState, x: nat, startYear: nat, n1: Noise, n2: Noise)
    requires Runnable(cfg, s) && x < cfg.numYears
    requires forall i :: 0 <= i < |s.portfolio.positions| ==> s.portfolio.positions[i].stdDev <= 0.0
    ensures YearStep(cfg, s, x, startYear, n1) == YearStep(cfg, s, x, startYear, n2)
  {
    var prep := Prepared(cfg, s, x);
    var year := |prep.history| + startYear;
    assert SameAssets(s.portfolio, prep.portfolio);
    SimulateWithoutVolatility(prep.portfolio, n1(year), n2(year));
  }
}
