/** The mutable `Scenario` object (stocker.py:209-275, 343-375): its own deep copy of a
    portfolio, four growing series, and the yearly loop. Each method is proved to change the
    scenario exactly as the matching function of module ScenarioModel says. */
module Scenarios {
  import opened Inflation
  import opened Positions
  import opened PortfolioModel
  import opened Portfolios
  import opened Options
  import opened ScenarioModel

  class Scenario {
    const name: string
    const numYears: nat
    const inflationRate: real
    const rebalance: bool
    const addition: real
    const additionIncrease: real
    /** The start weights and slopes of the glide path; None when no end weights were given. */
    const glide: Option<Glide>
    const portfolio: Portfolio
    var history: seq<PortfolioState>
    var uncorrectedHistory: seq<PortfolioState>
    var yearlyReturns: seq<real>
    var uncorrectedReturns: seq<real>

    function Config(): Settings
    {
      Settings(numYears, inflationRate, rebalance, addition, additionIncrease, glide)
    }

    function State(): ScenarioState
      reads this, portfolio, portfolio.positions
    {
      ScenarioState(portfolio.State(), history, uncorrectedHistory, yearlyReturns, uncorrectedReturns)
    }

    /** The objects this scenario owns: itself, its portfolio and that portfolio's positions. */
    ghost function Repr(): set<object>
    {
      {this, portfolio} + set p | p in portfolio.positions :: p as object
    }

    /** The class invariant: distinct positions, a consistent state, and a glide path (if
        any) with one start weight and one slope per position. */
    ghost predicate Valid()
      reads this, portfolio, portfolio.positions
    {
      && Distinct(portfolio.positions)
      && Consistent(State())
      && (glide.Some? ==> |glide.value.start| == |glide.value.slopes| == |portfolio.positions|)
    }

    /** `Scenario(name, portfolio, num_years, inflation_rate_perc, rebalance,
        annual_contribution, annual_contribution_increase_perc, end_weights)`. The scenario
        works on a deep copy of `p`; an empty `endWeights` stands for the absent argument.
        The glide slopes divide by `num_years - 1`. */
    constructor (name: string, p: Portfolio, numYears: nat, inflationPercent: real, rebalance: bool,
                 contribution: real, increasePercent: real, endWeights: seq<real>)
      requires p.Valid()
      requires endWeights != [] ==> |endWeights| == |p.weights| && numYears != 1
      ensures Valid() && fresh(Repr())
      ensures Config() == Settings(numYears, inflationPercent / 100.0, rebalance, contribution,
        increasePercent / 100.0,
        if endWeights == [] then None else Some(Glide(p.weights, GlideSlopes(p.weights, endWeights, numYears))))
      ensures State() == Fresh(p.State())
    {
      this.name := name;
      this.numYears := numYears;
      this.inflationRate := inflationPercent / 100.0;
      this.rebalance := rebalance;
      this.addition := contribution;
      this.additionIncrease := increasePercent / 100.0;
      this.glide := if endWeights == [] then None
        else Some(Glide(p.weights, GlideSlopes(p.weights, endWeights, numYears)));
      var copy := new Portfolio.Copy(p.State());
      this.portfolio := copy;
      this.history := [p.State()];
      this.uncorrectedHistory := [p.State()];
      this.yearlyReturns := [];
      this.uncorrectedReturns := [];
    }

    /** A fresh scenario object with the given settings, in state `s`: the deep copy
        `Monte_Carlo` makes of its template before each trial. */
    constructor Copy(name: string, cfg: Settings, s: ScenarioState)
      requires Consistent(s)
      requires cfg.glide.Some? ==> |cfg.glide.value.start| == |cfg.glide.value.slopes| == |s.portfolio.positions|
      ensures Valid() && fresh(Repr())
      ensures Config() == cfg && State() == s
    {
      this.name := name;
      this.numYears := cfg.numYears;
      this.inflationRate := cfg.inflationRate;
      this.rebalance := cfg.rebalance;
      this.addition := cfg.addition;
      this.additionIncrease := cfg.additionIncrease;
      this.glide := cfg.glide;
      var copy := new Portfolio.Copy(s.portfolio);
      this.portfolio := copy;
      this.history := s.history;
      this.uncorrectedHistory := s.uncorrected;
      this.yearlyReturns := s.yearlyReturns;
      this.uncorrectedReturns := s.uncorrectedReturns;
    }

    /** `reset()`: the portfolio goes back to the starting snapshot and every series is cut
        back to it. */
    method Reset()
      requires Valid()
      modifies this, portfolio, portfolio.positions
      ensures Valid()
      ensures State() == ResetState(old(State()))
    {
      portfolio.Restore(history[0]);
      history := [portfolio.State()];
      uncorrectedHistory := [portfolio.State()];
      yearlyReturns := [];
      uncorrectedReturns := [];
    }

    /** `_Scenario_Base._run(start_year)`: one simulated year, recorded. `noise(y)(i)` is the
        draw of position i in year y; `before` is the state the year starts from. */
    method Step(startYear: nat, noise: Noise, ghost before: ScenarioState)
      requires Distinct(portfolio.positions) && Consistent(before) && before == State()
      requires inflationRate != -1.0
      modifies this, portfolio, portfolio.positions
      ensures State() == BaseStep(before, inflationRate, rebalance, startYear, noise)
    {
      var year := |history| + startYear;
      var prevValue, value := GrowYear(noise(year), before.portfolio);
      var after := portfolio.State();
      Record(year, prevValue, value, after);
      assert State() == ScenarioState(after,
        before.history + [CorrectedSnapshot(after, year, inflationRate)],
        before.uncorrected + [after],
        before.yearlyReturns + [CorrectedReturn(prevValue, value, year, inflationRate)],
        before.uncorrectedReturns + [Growth(prevValue, value)]);
      BaseStepParts(before, inflationRate, rebalance, startYear, noise);
    }

    /** The first half of `_run`: read the value, simulate a year, read the new value, and
        rebalance to the current weights if the scenario rebalances. */
    method GrowYear(draw: nat -> real, ghost p: PortfolioState) returns (prevValue: real, value: real)
      requires Distinct(portfolio.positions) && WellFormed(p) && p == portfolio.State()
      modifies portfolio, portfolio.positions
      ensures prevValue == Total(p)
      ensures value == Total(Simulated(p, draw))
      ensures portfolio.State() == Settled(Simulated(p, draw), rebalance)
    {
      prevValue := portfolio.Value();
      portfolio.Simulate(draw);
      value := portfolio.Value();
      if rebalance {
        portfolio.Rebalance([]);
      }
    }

    /** The second half of `_run`: append the inflation-corrected snapshot, the corrected
        return, the nominal snapshot and the nominal return of the year just simulated;
        `after` is the state of the portfolio at that point. */
    method Record(year: nat, prevValue: real, value: real, after: PortfolioState)
      requires WellFormed(after) && Total(after) == value
      requires Discountable(year, inflationRate)
      modifies this
      ensures history == old(history) + [CorrectedSnapshot(after, year, inflationRate)]
      ensures uncorrectedHistory == old(uncorrectedHistory) + [after]
      ensures yearlyReturns == old(yearlyReturns) + [CorrectedReturn(prevValue, value, year, inflationRate)]
      ensures uncorrectedReturns == old(uncorrectedReturns) + [Growth(prevValue, value)]
    {
      var corrected := PresentValue(value, year, inflationRate);
      var correction := corrected - value;
      var snapshot := Traded(after, correction);
      history := history + [snapshot];
      var correctedPrev := prevValue;
      if year > 0 {
        correctedPrev := PresentValue(prevValue, year - 1, inflationRate);
      }
      if correctedPrev > 0.0 {
        yearlyReturns := yearlyReturns + [(corrected - correctedPrev) / correctedPrev];
      } else {
        yearlyReturns := yearlyReturns + [0.0];
      }
      uncorrectedHistory := uncorrectedHistory + [after];
      if prevValue > 0.0 {
        uncorrectedReturns := uncorrectedReturns + [(value - prevValue) / prevValue];
      } else {
        uncorrectedReturns := uncorrectedReturns + [0.0];
      }
    }

    /** `Scenario._run(start_year)`: `num_years` iterations of glide-path rebalance,
        contribution and one recorded year. The contribution is grown before each use. */
    method RunFrom(startYear: nat, noise: Noise)
      requires Valid() && Runnable(Config(), State())
      modifies this, portfolio, portfolio.positions
      ensures Valid()
      ensures State() == RunYears(Config(), old(State()), startYear, noise, numYears)
    {
      ghost var start := State();
      var toAdd := addition;
      for x := 0 to numYears
        invariant toAdd == Running(Config(), x)
        invariant State() == RunYears(Config(), start, startYear, noise, x)
      {
        toAdd := Year(x, toAdd, startYear, noise, State());
        RunYearsNext(Config(), start, startYear, noise, x);
      }
    }

    /** Iteration x of `Scenario._run(start_year)`, from state `before`; `toAdd` is the
        running contribution before the iteration and `added` the one after it. */
    method Year(x: nat, toAdd: real, startYear: nat, noise: Noise, ghost before: ScenarioState)
      returns (added: real)
      requires Distinct(portfolio.positions) && before == State()
      requires Runnable(Config(), before) && x < numYears && toAdd == Running(Config(), x)
      modifies this, portfolio, portfolio.positions
      ensures State() == YearStep(Config(), before, x, startYear, noise)
      ensures added == Running(Config(), x + 1)
    {
      added := PrepareYear(x, toAdd, before.portfolio);
      ghost var prepared := State();
      assert prepared == Prepared(Config(), before, x);
      Step(startYear, noise, prepared);
    }

    /** The first half of iteration x of `_run`: rebalance to the glide-path weights of year
        x (when there is a glide path), grow the running contribution, and trade it unless
        it is zero. `p` is the portfolio the iteration starts from. */
    method PrepareYear(x: nat, toAdd: real, ghost p: PortfolioState) returns (added: real)
      requires Distinct(portfolio.positions) && p == portfolio.State()
      requires WellFormed(p) && GlideFeasible(Config(), |p.positions|) && x < numYears
      requires toAdd == Running(Config(), x)
      modifies portfolio, portfolio.positions
      ensures portfolio.State() == PreparedPortfolio(Config(), p, x)
      ensures added == Contribution(Config(), x)
    {
      if glide.Some? {
        var newWeights := GlideWeights(glide.value, x);
        portfolio.Rebalance(newWeights);
      }
      ghost var p1 := portfolio.State();
      assert p1 == Glided(Config(), p, x);
      ContributionStep(Config(), x, toAdd);
      added := toAdd + toAdd * additionIncrease;
      if added != 0.0 {
        portfolio.Trade(added);
      }
      assert added == Contribution(Config(), x);
      assert portfolio.State() == if added != 0.0 then Traded(p1, added) else p1;
    }

    /** `run()`: the whole scenario from start year 0. */
    method Run(noise: Noise)
      requires Valid() && Runnable(Config(), State())
      modifies this, portfolio, portfolio.positions
      ensures Valid()
      ensures State() == ScenarioModel.Run(Config(), old(State()), noise)
    {
      RunFrom(0, noise);
    }
  }

  /** One recorded year, spelled out part by part. */
  lemma BaseStepParts(s: ScenarioState, rate: real, rebalance: bool, startYear: nat, noise: Noise)
    requires Consistent(s) && rate != -1.0
    ensures var year := |s.history| + startYear;
      var prev := Total(s.portfolio);
      var grown := Simulated(s.portfolio, noise(year));
      var after := Settled(grown, rebalance);
      BaseStep(s, rate, rebalance, startYear, noise) == ScenarioState(
        after,
        s.history + [CorrectedSnapshot(after, year, rate)],
        s.uncorrected + [after],
        s.yearlyReturns + [CorrectedReturn(prev, Total(grown), year, rate)],
        s.uncorrectedReturns + [Growth(prev, Total(grown))])
  {
  }

  /** One more iteration of the run. */
  lemma RunYearsNext(cfg: Settings, s: ScenarioState, startYear: nat, noise: Noise, x: nat)
    requires Runnable(cfg, s) && x < cfg.numYears
    ensures RunYears(cfg, s, startYear, noise, x + 1)
      == YearStep(cfg, RunYears(cfg, s, startYear, noise, x), x, startYear, noise)
  {
  }

  /** The running contribution of the loop, grown once more, is iteration x's contribution. */
  lemma ContributionStep(cfg: Settings, x: nat, toAdd: real)
    requires toAdd == Running(cfg, x)
    ensures toAdd + toAdd * cfg.additionIncrease == Contribution(cfg, x)
  {
    var b := 1.0 + cfg.additionIncrease;
    if x == 0 {
      assert Pow(b, 1) == b;
    } else {
      assert Pow(b, x + 1) == b * Pow(b, x);
      calc {
        toAdd + toAdd * cfg.additionIncrease;
        toAdd * b;
        cfg.addition * (b * Pow(b, x));
      }
    }
  }
}
