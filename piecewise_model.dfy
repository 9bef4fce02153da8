/** A piecewise scenario as a value (stocker.py:383-416): its own base state and the phases
    (child scenarios) it runs in turn. The hand-over zeroes a phase's portfolio and trades
    in the previous phase's terminal value; the start year runs on by each phase's length;
    the phases' recorded years are appended to the piecewise scenario's own series. */
module PiecewiseModel {
  import opened Sums
  import opened Inflation
  import opened PortfolioModel
  import opened ScenarioModel

  /** A phase: the settings and the current state of one child scenario. */
  datatype Phase = Phase(cfg: Settings, state: ScenarioState)

  /** The piecewise scenario: its own base-class state and its phases, in order. */
  datatype Piecewise = Piecewise(own: ScenarioState, phases: seq<Phase>)

  /** The loop state of `Piecewise_Scenario.run`: the scenario so far, the running `value`
      and the running `year`. */
  datatype Progress = Progress(pw: Piecewise, value: real, year: nat)

  /** There is at least one phase (the source reads `scenarios[0]`), and the own state and
      every phase's state are consistent. */
  predicate Formed(pw: Piecewise)
  {
    && Consistent(pw.own)
    && pw.phases != []
    && forall i :: 0 <= i < |pw.phases| ==> Consistent(pw.phases[i].state)
  }

  /** Every phase can run, and the own state is consistent. */
  predicate Ready(pw: Piecewise)
  {
    && Consistent(pw.own)
    && pw.phases != []
    && forall i :: 0 <= i < |pw.phases| ==> Runnable(pw.phases[i].cfg, pw.phases[i].state)
  }

  /** `r` has the phases of `pw` with the same settings (their states may differ). */
  predicate SameSettings(pw: Piecewise, r: Piecewise)
  {
    |r.phases| == |pw.phases| && forall i :: 0 <= i < |pw.phases| ==> r.phases[i].cfg == pw.phases[i].cfg
  }

  /** The hand-over to a phase: its portfolio is zeroed by trading away its total, then
      `value` is traded in. */
  function Handed(s: ScenarioState, value: real): (r: ScenarioState)
    requires Consistent(s)
    ensures Consistent(r) && r == s.(portfolio := r.portfolio)
    ensures SameAssets(s.portfolio, r.portfolio)
    ensures r.portfolio == Traded(Traded(s.portfolio, -Total(s.portfolio)), value)
  {
    var zeroed := Traded(s.portfolio, -Total(s.portfolio));
    var handed := Traded(zeroed, value);
    SameAssetsTransitive(s.portfolio, zeroed, handed);
    SameAssetsTransitive(s.history[0], s.portfolio, handed);
    s.(portfolio := handed)
  }

  /** The own series extended by a phase's recorded years: every entry after the first of
      its histories, and all of its returns. The own portfolio is not touched. */
  function Appended(own: ScenarioState, child: ScenarioState): (r: ScenarioState)
    requires Consistent(own) && Consistent(child)
    ensures Consistent(r) && r.portfolio == own.portfolio
    ensures Extends(own, r, |child.history| - 1)
  {
    own.(history := own.history + child.history[1..],
         uncorrected := own.uncorrected + child.uncorrected[1..],
         yearlyReturns := own.yearlyReturns + child.yearlyReturns,
         uncorrectedReturns := own.uncorrectedReturns + child.uncorrectedReturns)
  }

  /** Phase i's state after the hand-over of `value` and its run from start year `year`. */
  function PhaseRun(ph: Phase, value: real, year: nat, noise: Noise): (r: ScenarioState)
    requires Runnable(ph.cfg, ph.state)
    ensures Runnable(ph.cfg, r)
    ensures Extends(ph.state, r, ph.cfg.numYears)
    ensures ph.cfg.rebalance && ph.cfg.inflationRate > -1.0 ==>
      DiscountedFrom(r, |ph.state.history|, year, ph.cfg.inflationRate)
  {
    var handed := Handed(ph.state, value);
    RunYears(ph.cfg, handed, year, noise, ph.cfg.numYears)
  }

  /** One iteration of the loop of `Piecewise_Scenario.run`, on phase i. */
  function RunPhase(pr: Progress, i: nat, noise: Noise): (r: Progress)
    requires Ready(pr.pw) && i < |pr.pw.phases|
    ensures Ready(r.pw) && SameSettings(pr.pw, r.pw)
    ensures forall j :: 0 <= j < |pr.pw.phases| && j != i ==> r.pw.phases[j] == pr.pw.phases[j]
    ensures r.pw.phases[i].state == PhaseRun(pr.pw.phases[i], pr.value, pr.year, noise)
    ensures r.pw.own == Appended(pr.pw.own, r.pw.phases[i].state)
    ensures r.value == Total(r.pw.phases[i].state.portfolio)
    ensures r.year == pr.year + |pr.pw.phases[i].state.history| - 1 + pr.pw.phases[i].cfg.numYears
    ensures r.year >= pr.year && Extends(pr.pw.own, r.pw.own, r.year - pr.year)
  {
    var ph := pr.pw.phases[i];
    var after := PhaseRun(ph, pr.value, pr.year, noise);
    Progress(
      Replaced(pr.pw, Appended(pr.pw.own, after), i, Phase(ph.cfg, after)),
      Total(after.portfolio),
      pr.year + |after.history| - 1)
  }

  /** `pw` with a new own state and phase i replaced by a runnable phase of the same
      settings. */
  function Replaced(pw: Piecewise, own: ScenarioState, i: nat, ph: Phase): (r: Piecewise)
    requires Ready(pw) && i < |pw.phases| && Consistent(own)
    requires Runnable(ph.cfg, ph.state) && ph.cfg == pw.phases[i].cfg
    ensures Ready(r) && SameSettings(pw, r)
    ensures r.own == own && r.phases[i] == ph
    ensures forall j :: 0 <= j < |pw.phases| && j != i ==> r.phases[j] == pw.phases[j]
  {
    Piecewise(own, pw.phases[i := ph])
  }

  /** The entries the first k phases add to the piecewise series: each phase adds its
      recorded years so far (after the first snapshot) and the years it runs. */
  function Spans(phases: seq<Phase>, k: nat): int
    requires k <= |phases|
  {
    if k == 0 then 0
    else Spans(phases, k - 1) + |phases[k - 1].state.history| - 1 + phases[k - 1].cfg.numYears
  }

  /** Every phase is fresh: nothing recorded beyond its starting snapshot. */
  predicate AllFresh(phases: seq<Phase>)
  {
    forall i :: 0 <= i < |phases| ==> |phases[i].state.history| == 1
  }

  /** Every phase is fresh, the own series holds only its starting snapshot, and every
      phase rebalances at the first phase's inflation rate, which discounts. */
  predicate OneRate(pw: Piecewise)
  {
    && pw.phases != []
    && AllFresh(pw.phases)
    && |pw.own.history| == 1
    && pw.phases[0].cfg.inflationRate > -1.0
    && forall i :: 0 <= i < |pw.phases| ==>
         pw.phases[i].cfg.rebalance && pw.phases[i].cfg.inflationRate == pw.phases[0].cfg.inflationRate
  }

  /** The own series extended by a phase that ran from the right start year stay
      discounted entry by entry. */
  lemma AppendedDiscounted(own: ScenarioState, after: ScenarioState, year: nat, rate: real)
    requires Consistent(own) && Consistent(after) && rate > -1.0 && |own.history| == 1 + year
    requires DiscountedFrom(own, 1, 0, rate) && DiscountedFrom(after, 1, year, rate)
    ensures DiscountedFrom(Appended(own, after), 1, 0, rate)
  {
    var r := Appended(own, after);
    forall j | 1 <= j < |r.history|
      ensures Total(r.history[j]) == PresentValue(Total(r.uncorrected[j]), j, rate)
    {
      if j < |own.history| {
        assert r.history[j] == own.history[j] && r.uncorrected[j] == own.uncorrected[j];
      } else {
        var m := j - year;
        assert r.history[j] == after.history[m] && r.uncorrected[j] == after.uncorrected[m];
      }
    }
  }

  /** The loop state after the first k phases. The loop starts from the value of the first
      phase's portfolio and year 0. */
  function RunPhases(pw: Piecewise, noise: Noise, k: nat): (r: Progress)
    requires Ready(pw) && k <= |pw.phases|
    ensures Ready(r.pw) && SameSettings(pw, r.pw)
    ensures forall j :: k <= j < |pw.phases| ==> r.pw.phases[j] == pw.phases[j]
    ensures r.year == Spans(pw.phases, k) && Extends(pw.own, r.pw.own, r.year)
    ensures OneRate(pw) ==> DiscountedFrom(r.pw.own, 1, 0, pw.phases[0].cfg.inflationRate)
    decreases k
  {
    if k == 0 then Progress(pw, Total(pw.phases[0].state.portfolio), 0)
    else
      var pr := RunPhases(pw, noise, k - 1);
      var r := RunPhase(pr, k - 1, noise);
      ExtendsTransitive(pw.own, pr.pw.own, r.pw.own, pr.year, r.year - pr.year);
      if OneRate(pw) then
        assert pr.pw.phases[k - 1] == pw.phases[k - 1];
        AppendedDiscounted(pr.pw.own, r.pw.phases[k - 1].state, pr.year, pw.phases[0].cfg.inflationRate);
        r
      else r
  }

  /** The loop state after k + 1 phases is one more iteration on the state after k. */
  lemma RunPhasesStep(pw: Piecewise, noise: Noise, k: nat)
    requires Ready(pw) && k < |pw.phases|
    ensures RunPhases(pw, noise, k + 1) == RunPhase(RunPhases(pw, noise, k), k, noise)
  {
  }

  /** `Piecewise_Scenario.run()`. */
  function Run(pw: Piecewise, noise: Noise): (r: Piecewise)
    requires Ready(pw)
    ensures Ready(r) && SameSettings(pw, r)
  {
    RunPhases(pw, noise, |pw.phases|).pw
  }

  /** `Piecewise_Scenario.reset()`: every phase is reset, then the own state. */
  function Reset(pw: Piecewise): (r: Piecewise)
    requires Formed(pw)
    ensures Formed(r) && SameSettings(pw, r)
    ensures r.own == ResetState(pw.own)
    ensures forall i :: 0 <= i < |pw.phases| ==> r.phases[i].state == ResetState(pw.phases[i].state)
  {
    Piecewise(ResetState(pw.own),
      seq(|pw.phases|, i requires 0 <= i < |pw.phases| => Phase(pw.phases[i].cfg, ResetState(pw.phases[i].state))))
  }
}
