/** What `Piecewise_Scenario.run` promises, proved about the functions of module
    PiecewiseModel: how long the series grow, which start year each phase gets, what each
    phase starts from, and that the aggregate history is discounted year by year. */
module PiecewiseProperties {
  import opened Inflation
  import opened PortfolioModel
  import opened ScenarioModel
  import opened PiecewiseModel

  /** The durations of the first k phases, added up. */
  function Years(phases: seq<Phase>, k: nat): nat
    requires k <= |phases|
  {
    if k == 0 then 0 else Years(phases, k - 1) + phases[k - 1].cfg.numYears
  }

  lemma {:induction false} SpansOfFresh(phases: seq<Phase>, k: nat)
    requires AllFresh(phases) && k <= |phases|
    ensures Spans(phases, k) == Years(phases, k)
  {
    if k > 0 {
      SpansOfFresh(phases, k - 1);
    }
  }

  /** `Piecewise_Scenario.run()` over fresh phases, from a fresh own state: one history
      entry per year of every phase after the starting snapshot, one return per year. */
  lemma RunLengths(pw: Piecewise, noise: Noise)
    requires Ready(pw) && AllFresh(pw.phases) && |pw.own.history| == 1
    ensures var r := PiecewiseModel.Run(pw, noise).own;
      && |r.history| == |r.uncorrected| == 1 + Years(pw.phases, |pw.phases|)
      && |r.yearlyReturns| == |r.uncorrectedReturns| == Years(pw.phases, |pw.phases|)
      && r.history[0] == pw.own.history[0]
  {
    SpansOfFresh(pw.phases, |pw.phases|);
  }

  /** Over fresh phases, phase k runs from a start year that is the sum of the durations
      of the phases before it. */
  lemma PhaseStartYear(pw: Piecewise, noise: Noise, k: nat)
    requires Ready(pw) && AllFresh(pw.phases) && k < |pw.phases|
    ensures RunPhases(pw, noise, k).year == Years(pw.phases, k)
  {
    SpansOfFresh(pw.phases, k);
  }

  /** The hand-over to phase k: the running value is the nominal terminal value of phase
      k - 1 (for k = 0, the first phase's own value), never negative; once handed over,
      phase k's portfolio is worth exactly that value when, and only when, its positions
      were proportional to its weights. */
  lemma Handoff(pw: Piecewise, noise: Noise, k: nat)
    requires Ready(pw) && k < |pw.phases| && pw.phases[k].state.portfolio.positions != []
    ensures var pr := RunPhases(pw, noise, k);
      && pr.value >= 0.0
      && (k > 0 ==> pr.value == Total(pr.pw.phases[k - 1].state.portfolio))
      && (Total(Handed(pw.phases[k].state, pr.value).portfolio) == pr.value
          <==> Proportional(pw.phases[k].state.portfolio))
  {
    var pr := RunPhases(pw, noise, k);
    if k > 0 {
      var before := RunPhases(pw, noise, k - 1);
      var after := PhaseRun(before.pw.phases[k - 1], before.value, before.year, noise);
      assert pr.pw.phases[k - 1].state == after;
      TotalNonNegative(after.portfolio);
    } else {
      TotalNonNegative(pw.phases[0].state.portfolio);
    }
    HandedTotal(pw.phases[k].state, pr.value);
  }

  /** A hand-over of a non-negative value leaves the phase worth exactly that value when,
      and only when, its positions were proportional to its weights. */
  lemma HandedTotal(s: ScenarioState, value: real)
    requires Consistent(s) && s.portfolio.positions != [] && value >= 0.0
    ensures Total(Handed(s, value).portfolio) == value <==> Proportional(s.portfolio)
  {
    HandoffTotal(s.portfolio, value);
  }

  /** The whole run: with fresh phases sharing one inflation rate and rebalancing, every
      entry j of the aggregate corrected history is discounted by exactly j years. */
  lemma RunDiscounted(pw: Piecewise, noise: Noise, rate: real)
    requires Ready(pw) && AllFresh(pw.phases) && |pw.own.history| == 1 && rate > -1.0
    requires forall i :: 0 <= i < |pw.phases| ==>
      pw.phases[i].cfg.rebalance && pw.phases[i].cfg.inflationRate == rate
    ensures DiscountedFrom(PiecewiseModel.Run(pw, noise).own, 1, 0, rate)
  {
    assert pw.phases[0].cfg.inflationRate == rate;
    assert OneRate(pw);
    var r := RunPhases(pw, noise, |pw.phases|);
    assert DiscountedFrom(r.pw.own, 1, 0, rate);
  }
}
