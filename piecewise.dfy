/** The mutable `Piecewise_Scenario` object (stocker.py:383-416): the phases it runs one
    after the other, the value of each handed to the next, and the base scenario's four series
    that collect what every phase recorded. Each method is proved to change the object exactly
    as the matching function of module PiecewiseModel says. */
module Piecewises {
  import opened PortfolioModel
  import opened ScenarioModel
  import opened PiecewiseModel

  class PiecewiseScenario {
    const name: string
    /** The base-class settings the constructor passes on: the first phase's length and the
        defaults (3.5 percent inflation, rebalancing). `run()` does not read them. */
    const numYears: nat
    const inflationRate: real
    const rebalance: bool
    /** The phases, in the order they run: the settings and current state of each child. */
    var phases: seq<Phase>
    /** The base class's own copy of the first phase's portfolio. No method trades on it, so
        it is held as a snapshot. */
    var portfolio: PortfolioState
    var history: seq<PortfolioState>
    var uncorrectedHistory: seq<PortfolioState>
    var yearlyReturns: seq<real>
    var uncorrectedReturns: seq<real>

    function OwnState(): ScenarioState
      reads this
    {
      ScenarioState(portfolio, history, uncorrectedHistory, yearlyReturns, uncorrectedReturns)
    }

    function State(): Piecewise
      reads this
    {
      Piecewise(OwnState(), phases)
    }

    /** `Piecewise_Scenario(name, scenarios)`: the base class starts from a copy of the first
        phase's portfolio, with the default inflation and rebalancing. */
    constructor (name: string, scenarios: seq<Phase>)
      requires scenarios != [] && forall i :: 0 <= i < |scenarios| ==> Consistent(scenarios[i].state)
      ensures Formed(State()) && phases == scenarios
      ensures numYears == scenarios[0].cfg.numYears && inflationRate == 0.035 && rebalance
      ensures OwnState() == Fresh(scenarios[0].state.portfolio)
    {
      this.name := name;
      this.numYears := scenarios[0].cfg.numYears;
      this.inflationRate := 3.5 / 100.0;
      this.rebalance := true;
      this.phases := scenarios;
      var p := scenarios[0].state.portfolio;
      this.portfolio := p;
      this.history := [p];
      this.uncorrectedHistory := [p];
      this.yearlyReturns := [];
      this.uncorrectedReturns := [];
    }

    /** `run()`: each phase in turn is emptied, given the running value, run from the running
        year, and its recorded years appended to the own series. */
    method Run(noise: Noise, ghost before: Piecewise)
      requires State() == before && Ready(before)
      modifies this
      ensures State() == PiecewiseModel.Run(before, noise)
    {
      var value := Total(phases[0].state.portfolio);
      var year: nat := 0;
      for i := 0 to |phases|
        invariant Progress(State(), value, year) == RunPhases(before, noise, i)
      {
        value, year := Advance(i, value, year, noise, RunPhases(before, noise, i));
        RunPhasesStep(before, noise, i);
      }
    }

    /** One iteration of the loop of `run()`, on phase i: the phase is handed the running
        value and run from the running year, and what it recorded is appended to the own
        series. */
    method Advance(i: nat, value: real, year: nat, noise: Noise, ghost pr: Progress)
      returns (nextValue: real, nextYear: nat)
      requires Ready(pr.pw) && i < |pr.pw.phases| && Progress(State(), value, year) == pr
      modifies this
      ensures Progress(State(), nextValue, nextYear) == RunPhase(pr, i, noise)
    {
      var ph := phases[i];
      var after := PhaseRun(ph, value, year, noise);
      phases := phases[i := Phase(ph.cfg, after)];
      history := history + after.history[1..];
      uncorrectedHistory := uncorrectedHistory + after.uncorrected[1..];
      yearlyReturns := yearlyReturns + after.yearlyReturns;
      uncorrectedReturns := uncorrectedReturns + after.uncorrectedReturns;
      nextYear := year + |after.history| - 1;
      nextValue := Total(after.portfolio);
    }

    /** `reset()`: every phase is reset, then the own state. */
    method Reset(ghost before: Piecewise)
      requires State() == before && Formed(before)
      modifies this
      ensures State() == PiecewiseModel.Reset(before)
    {
      for i := 0 to |phases|
        invariant OwnState() == before.own && |phases| == |before.phases|
        invariant forall j :: 0 <= j < i ==> phases[j] == Phase(before.phases[j].cfg, ResetState(before.phases[j].state))
        invariant forall j :: i <= j < |phases| ==> phases[j] == before.phases[j]
      {
        phases := phases[i := Phase(phases[i].cfg, ResetState(phases[i].state))];
      }
      portfolio := history[0];
      history := [portfolio];
      uncorrectedHistory := [portfolio];
      yearlyReturns := [];
      uncorrectedReturns := [];
    }
  }
}
