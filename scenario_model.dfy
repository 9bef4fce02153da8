/** A savings scenario as a value (stocker.py:209-275, 343-375): its settings, its state
    (current portfolio, corrected and nominal histories, two return series), one year of the
    base step `_Scenario_Base._run`, one iteration of `Scenario._run`, the whole run, and
    `reset`. The `Scenario` class in module Scenarios is proved to follow these functions. */
module ScenarioModel {
  import opened Sums
  import opened Inflation
  import opened Positions
  import opened PortfolioModel
  import opened Options

  /** The normal draws: `noise(y)(i)` is the draw of position i in the year recorded as year
      `y` (the `year` of the base step). Years never repeat within one run, piecewise or not,
      so every draw has a slot of its own. */
  type Noise = nat -> nat -> real

  /** A linear glide path: the start weights and the yearly change of each weight. */
  datatype Glide = Glide(start: seq<real>, slopes: seq<real>)

  /** The settings of a `Scenario` that never change once it is built. Rates are fractions. */
  datatype Settings = Settings(
    numYears: nat,
    inflationRate: real,
    rebalance: bool,
    addition: real,
    additionIncrease: real,
    glide: Option<Glide>)

  /** The mutable part of a scenario: the current portfolio and the four recorded series. */
  datatype ScenarioState = ScenarioState(
    portfolio: PortfolioState,
    history: seq<PortfolioState>,
    uncorrected: seq<PortfolioState>,
    yearlyReturns: seq<real>,
    uncorrectedReturns: seq<real>)

  /** The state of a newly built (or reset) scenario over a copy of `p`. */
  function Fresh(p: PortfolioState): ScenarioState
  {
    ScenarioState(p, [p], [p], [], [])
  }

  function Last<T>(xs: seq<T>): T
    requires xs != []
  {
    xs[|xs| - 1]
  }

  /** What holds of every scenario state: a well-formed portfolio over the assets of the
      well-formed starting snapshot, and one return per recorded year after the first. */
  predicate Consistent(s: ScenarioState)
  {
    && WellFormed(s.portfolio)
    && |s.history| >= 1
    && |s.uncorrected| == |s.history|
    && |s.yearlyReturns| + 1 == |s.history|
    && |s.uncorrectedReturns| == |s.yearlyReturns|
    && WellFormed(s.history[0])
    && SameAssets(s.history[0], s.portfolio)
  }

  /** `r` continues `s` by exactly k recorded years: every series of `s` is a prefix of the
      matching series of `r`, and the history is k entries longer. */
  predicate Extends(s: ScenarioState, r: ScenarioState, k: nat)
  {
    && |r.history| == |s.history| + k
    && s.history <= r.history
    && s.uncorrected <= r.uncorrected
    && s.yearlyReturns <= r.yearlyReturns
    && s.uncorrectedReturns <= r.uncorrectedReturns
  }

  lemma ExtendsTransitive(s: ScenarioState, t: ScenarioState, r: ScenarioState, m: nat, n: nat)
    requires Extends(s, t, m) && Extends(t, r, n)
    ensures Extends(s, r, m + n)
  {
  }

  // ---------------------------------------------------------------------------------------
  // Glide path

  /** `(w_end - w_start) / (num_years - 1)`. */
  function Slope(start: real, end: real, numYears: nat): real
    requires numYears != 1
  {
    (end - start) / (numYears as real - 1.0)
  }

  /** The slopes `Scenario.__init__` computes from the start and end weights. */
  function GlideSlopes(start: seq<real>, end: seq<real>, numYears: nat): (slopes: seq<real>)
    requires |end| == |start| && numYears != 1
    ensures |slopes| == |start|
    ensures forall i :: 0 <= i < |start| ==> slopes[i] * (numYears as real - 1.0) == end[i] - start[i]
  {
    seq(|start|, i requires 0 <= i < |start| => Slope(start[i], end[i], numYears))
  }

  /** `s*x + w`: one weight of year x on the glide path. */
  function Interpolated(start: real, slope: real, x: nat): real
  {
    slope * x as real + start
  }

  /** The raw weights the glide path rebalances to in iteration x. */
  function GlideWeights(g: Glide, x: nat): (w: seq<real>)
    requires |g.slopes| == |g.start|
    ensures |w| == |g.start|
    ensures forall i :: 0 <= i < |w| ==> w[i] == Interpolated(g.start[i], g.slopes[i], x)
  {
    seq(|g.start|, i requires 0 <= i < |g.start| => Interpolated(g.start[i], g.slopes[i], x))
  }

  /** Every glide-path weight vector used during the run is one `set_weights` accepts. */
  predicate GlideFeasible(cfg: Settings, n: nat)
  {
    match cfg.glide
    case None => true
    case Some(g) =>
      && |g.start| == n
      && |g.slopes| == n
      && forall x: nat :: x < cfg.numYears ==> AcceptableWeights(GlideWeights(g, x), n)
  }

  /** A scenario that can run to the end without an assertion or division failure. */
  predicate Runnable(cfg: Settings, s: ScenarioState)
  {
    Consistent(s) && cfg.inflationRate != -1.0 && GlideFeasible(cfg, |s.portfolio.positions|)
  }

  // ---------------------------------------------------------------------------------------
  // One year

  /** `(next - prev) / prev`, or 0 when the previous value is not positive. */
  function Growth(prev: real, next: real): real
  {
    if prev > 0.0 then (next - prev) / prev else 0.0
  }

  /** The inflation-corrected snapshot of a year: a copy of the portfolio traded by the
      difference between the present value of its total and the total. With rebalancing the
      portfolio is proportional, no position is floored, and the snapshot is worth exactly
      that present value. */
  function CorrectedSnapshot(after: PortfolioState, year: nat, rate: real): (snap: PortfolioState)
    requires WellFormed(after) && Discountable(year, rate)
    ensures SameShape(after, snap) && WellFormed(snap)
    ensures Proportional(after) && rate > -1.0 ==>
      Total(snap) == PresentValue(Total(after), year, rate)
  {
    var value := Total(after);
    var snap := Traded(after, PresentValue(value, year, rate) - value);
    assert Proportional(after) && rate > -1.0 ==> Total(snap) == PresentValue(value, year, rate) by {
      if Proportional(after) && rate > -1.0 {
        TotalNonNegative(after);
        if after.positions != [] {
          TradeKeepsProportion(after, PresentValue(value, year, rate) - value);
        } else {
          assert Values(after) == [] && Values(snap) == [];
        }
      }
    }
    snap
  }

  /** The inflation-corrected return of a year that went from `prev` to `value` (nominal):
      the growth between the previous value discounted by `year - 1` years and the new one
      discounted by `year`, or 0 when the discounted previous value is not positive. */
  function CorrectedReturn(prev: real, value: real, year: nat, rate: real): real
    requires Discountable(year, rate)
  {
    var corrected := PresentValue(value, year, rate);
    var correctedPrev := if year > 0 then PresentValue(prev, year - 1, rate) else prev;
    Growth(correctedPrev, corrected)
  }

  /** The portfolio after the optional rebalance to its own weights: still well formed and
      worth the same, and proportional when rebalanced. */
  function Settled(grown: PortfolioState, rebalance: bool): (after: PortfolioState)
    requires WellFormed(grown)
    ensures WellFormed(after) && SameAssets(grown, after) && after.weights == grown.weights
    ensures Total(after) == Total(grown)
    ensures rebalance ==> Proportional(after)
  {
    RebalanceConserves(grown, []);
    if rebalance then Rebalanced(grown, []) else grown
  }

  /** The record of a year of the base step that went from `prev` to `value` (nominal,
      before the optional rebalance) and left the portfolio at `after`: the corrected
      snapshot, the nominal snapshot and the two returns are appended. */
  function Recorded(s: ScenarioState, after: PortfolioState, year: nat, prev: real, value: real, rate: real): (r: ScenarioState)
    requires Consistent(s) && WellFormed(after) && SameAssets(s.portfolio, after)
    requires Discountable(year, rate)
    ensures Consistent(r) && Extends(s, r, 1)
    ensures r.portfolio == after && Last(r.uncorrected) == after
    ensures Proportional(after) && rate > -1.0 ==>
      Total(Last(r.history)) == PresentValue(Total(after), year, rate)
  {
    SameAssetsTransitive(s.history[0], s.portfolio, after);
    ScenarioState(
      after,
      s.history + [CorrectedSnapshot(after, year, rate)],
      s.uncorrected + [after],
      s.yearlyReturns + [CorrectedReturn(prev, value, year, rate)],
      s.uncorrectedReturns + [Growth(prev, value)])
  }

  /** `_Scenario_Base._run(start_year)`: simulate a year, optionally rebalance to the current
      weights, then record the inflation-corrected snapshot, the nominal snapshot, and the
      two returns. */
  function BaseStep(s: ScenarioState, rate: real, rebalance: bool, startYear: nat, noise: Noise): (r: ScenarioState)
    requires Consistent(s) && rate != -1.0
    ensures Consistent(r)
    ensures Extends(s, r, 1)
    ensures SameAssets(s.portfolio, r.portfolio) && r.portfolio.weights == s.portfolio.weights
    ensures Last(r.uncorrected) == r.portfolio
    ensures rebalance && rate > -1.0 ==>
      Total(Last(r.history)) == PresentValue(Total(Last(r.uncorrected)), |s.history| + startYear, rate)
  {
    var year := |s.history| + startYear;
    var grown := Simulated(s.portfolio, noise(year));
    var after := Settled(grown, rebalance);
    SameAssetsTransitive(s.portfolio, grown, after);
    Recorded(s, after, year, Total(s.portfolio), Total(grown), rate)
  }

  /** Entries `from` onward of the corrected history are each the present value, at their
      own year number, of the matching nominal entry. */
  ghost predicate DiscountedFrom(r: ScenarioState, from: nat, startYear: nat, rate: real)
    requires |r.uncorrected| == |r.history| && rate > -1.0
  {
    forall j :: from <= j < |r.history| ==>
      Total(r.history[j]) == PresentValue(Total(r.uncorrected[j]), j + startYear, rate)
  }

  /** The contribution traded in iteration x: `addition * (1 + increase)^(x + 1)`, the
      increase being applied before its first use. */
  function Contribution(cfg: Settings, x: nat): real
  {
    cfg.addition * Pow(1.0 + cfg.additionIncrease, x + 1)
  }

  /** What the running `to_add` of `Scenario._run` holds before iteration x: the bare
      addition before the first iteration, the previous iteration's contribution after. */
  function Running(cfg: Settings, x: nat): real
  {
    if x == 0 then cfg.addition else Contribution(cfg, x - 1)
  }

  /** The glide-path rebalance of iteration x: to `GlideWeights(g, x)` when there is a
      glide path, no change otherwise. The total is kept. */
  function Glided(cfg: Settings, p: PortfolioState, x: nat): (r: PortfolioState)
    requires WellFormed(p) && GlideFeasible(cfg, |p.positions|) && x < cfg.numYears
    ensures WellFormed(r) && SameAssets(p, r) && Total(r) == Total(p)
  {
    match cfg.glide
    case None => p
    case Some(g) =>
      RebalanceConserves(p, GlideWeights(g, x));
      Rebalanced(p, GlideWeights(g, x))
  }

  /** The first half of iteration x of `Scenario._run`, on the portfolio: the glide-path
      rebalance, then a trade of the contribution unless it is zero. */
  function PreparedPortfolio(cfg: Settings, p: PortfolioState, x: nat): (r: PortfolioState)
    requires WellFormed(p) && GlideFeasible(cfg, |p.positions|) && x < cfg.numYears
    ensures WellFormed(r) && SameAssets(p, r)
  {
    var p1 := Glided(cfg, p, x);
    var amount := Contribution(cfg, x);
    if amount != 0.0 then SameAssetsTransitive(p, p1, Traded(p1, amount)); Traded(p1, amount)
    else p1
  }

  /** The first half of iteration x of `Scenario._run`: only the portfolio changes. */
  function Prepared(cfg: Settings, s: ScenarioState, x: nat): (r: ScenarioState)
    requires Runnable(cfg, s) && x < cfg.numYears
    ensures Runnable(cfg, r)
    ensures r == s.(portfolio := r.portfolio)
    ensures SameAssets(s.portfolio, r.portfolio)
  {
    var p := PreparedPortfolio(cfg, s.portfolio, x);
    SameAssetsTransitive(s.history[0], s.portfolio, p);
    s.(portfolio := p)
  }

  /** Iteration x of `Scenario._run(start_year)`. */
  function YearStep(cfg: Settings, s: ScenarioState, x: nat, startYear: nat, noise: Noise): (r: ScenarioState)
    requires Runnable(cfg, s) && x < cfg.numYears
    ensures Runnable(cfg, r)
    ensures Extends(s, r, 1)
    ensures SameAssets(s.portfolio, r.portfolio)
    ensures cfg.rebalance && cfg.inflationRate > -1.0 ==>
      Total(Last(r.history)) == PresentValue(Total(Last(r.uncorrected)), |s.history| + startYear, cfg.inflationRate)
  {
    BaseStep(Prepared(cfg, s, x), cfg.inflationRate, cfg.rebalance, startYear, noise)
  }

  /** The state after the first k iterations of `Scenario._run(start_year)`. Each iteration
      appends exactly one entry to each series and leaves the earlier entries alone. */
  function RunYears(cfg: Settings, s: ScenarioState, startYear: nat, noise: Noise, k: nat): (r: ScenarioState)
    requires Runnable(cfg, s) && k <= cfg.numYears
    ensures Runnable(cfg, r)
    ensures Extends(s, r, k)
    ensures SameAssets(s.portfolio, r.portfolio)
    ensures cfg.rebalance && cfg.inflationRate > -1.0 ==>
      DiscountedFrom(r, |s.history|, startYear, cfg.inflationRate)
    decreases k
  {
    if k == 0 then s
    else
      var before := RunYears(cfg, s, startYear, noise, k - 1);
      var r := YearStep(cfg, before, k - 1, startYear, noise);
      if cfg.rebalance && cfg.inflationRate > -1.0 then
        DiscountCarried(before, r, |s.history|, startYear, cfg.inflationRate);
        r
      else r
  }

  lemma DiscountCarried(before: ScenarioState, r: ScenarioState, from: nat, startYear: nat, rate: real)
    requires |before.uncorrected| == |before.history| && |r.uncorrected| == |r.history| && rate > -1.0
    requires Extends(before, r, 1) && from <= |before.history|
    requires DiscountedFrom(before, from, startYear, rate)
    requires Total(Last(r.history)) == PresentValue(Total(Last(r.uncorrected)), |before.history| + startYear, rate)
    ensures DiscountedFrom(r, from, startYear, rate)
  {
    forall j | from <= j < |r.history|
      ensures Total(r.history[j]) == PresentValue(Total(r.uncorrected[j]), j + startYear, rate)
    {
      if j < |before.history| {
        assert r.history[j] == before.history[j] && r.uncorrected[j] == before.uncorrected[j];
      }
    }
  }

  /** `Scenario.run()`: all `num_years` iterations from start year 0. */
  function Run(cfg: Settings, s: ScenarioState, noise: Noise): ScenarioState
    requires Runnable(cfg, s)
  {
    RunYears(cfg, s, 0, noise, cfg.numYears)
  }

  /** `reset()`: back to the starting snapshot, with the histories cut down to it. */
  function ResetState(s: ScenarioState): (r: ScenarioState)
    requires Consistent(s)
    ensures Consistent(r) && r.history == [s.history[0]] && r.portfolio == s.history[0]
  {
    Fresh(s.history[0])
  }
}
