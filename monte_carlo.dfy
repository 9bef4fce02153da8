/** The `Monte_Carlo` object (stocker.py:441-482): a reset copy of a scenario (plain or
    piecewise) that is run again and again, each run on a fresh copy with its own draws, the
    inflation-corrected terminal value of every run kept, and the counts and order statistics
    of its report. */
module MonteCarlos {
  import opened Options
  import opened Inflation
  import opened PortfolioModel
  import opened ScenarioModel
  import opened PiecewiseModel
  import opened ScenarioProperties
  import opened PiecewiseProperties
  import opened Statistics
  import opened Outliers

  /** What a Monte Carlo simulation runs: a scenario or a piecewise scenario, as a value (the
      source deep-copies it before every run). */
  datatype Plan = Single(cfg: Settings, state: ScenarioState) | Phased(pw: Piecewise)

  /** The plan's state is one `reset()` accepts. */
  predicate Resettable(plan: Plan)
  {
    match plan
    case Single(_, s) => Consistent(s)
    case Phased(pw) => Formed(pw)
  }

  /** The plan can run to the end. */
  predicate Startable(plan: Plan)
  {
    match plan
    case Single(cfg, s) => Runnable(cfg, s)
    case Phased(pw) => Ready(pw)
  }

  /** `reset()` on the plan. */
  function ResetPlan(plan: Plan): (r: Plan)
    requires Resettable(plan)
    ensures Resettable(r)
  {
    match plan
    case Single(cfg, s) => Single(cfg, ResetState(s))
    case Phased(pw) => Phased(PiecewiseModel.Reset(pw))
  }

  /** `run()` on the plan, with the draws `noise`. */
  function Outcome(plan: Plan, noise: Noise): (r: Plan)
    requires Startable(plan)
    ensures |History(r)| >= 1
  {
    match plan
    case Single(cfg, s) => Single(cfg, ScenarioModel.Run(cfg, s, noise))
    case Phased(pw) => Phased(PiecewiseModel.Run(pw, noise))
  }

  /** A run leaves a plan that can run again, with the same settings. */
  lemma OutcomeStartable(plan: Plan, noise: Noise)
    requires Startable(plan)
    ensures Startable(Outcome(plan, noise))
    ensures plan.Single? <==> Outcome(plan, noise).Single?
    ensures plan.Single? ==> Outcome(plan, noise).cfg == plan.cfg
  {
  }

  /** The inflation-corrected history the plan has recorded. */
  function History(plan: Plan): seq<PortfolioState>
  {
    match plan
    case Single(_, s) => s.history
    case Phased(pw) => pw.own.history
  }

  /** `history[-1].value()`: the value of the last inflation-corrected snapshot. */
  function TerminalValue(plan: Plan): real
    requires |History(plan)| >= 1
  {
    Total(Last(History(plan)))
  }

  /** The count of `[v for v in values if v > goal]`. */
  function CountAbove(values: seq<real>, goal: real): (n: nat)
    ensures n <= |values|
  {
    if values == [] then 0
    else CountAbove(values[..|values| - 1], goal) + (if values[|values| - 1] > goal then 1 else 0)
  }

  /** The likelihood of meeting the goal: the share of the raw values strictly above it. */
  function GoalFraction(values: seq<real>, goal: real): (f: real)
    requires values != []
  {
    CountAbove(values, goal) as real / |values| as real
  }

  /** The values the report is computed from. */
  function Selected(raw: seq<real>, removeOutliers: bool): (r: seq<real>)
    requires raw != []
    ensures r != []
  {
    if removeOutliers then RemoveOutliers(raw) else raw
  }

  /** The figures of the report of `results()` that are modelled. */
  datatype Report = Report(
    runs: nat,
    outliersRemoved: nat,
    median: real,
    mad: real,
    minimum: real,
    maximum: real,
    goalFraction: Option<real>)

  /** Run k of a simulation: a copy of the template run on the k-th draws. */
  function TrialOf(template: Plan, draws: nat -> Noise): int --> Plan
  {
    k requires 0 <= k && Startable(template) => Outcome(template, draws(k))
  }

  /** The terminal value of run k. */
  function TerminalOf(template: Plan, draws: nat -> Noise): int --> real
  {
    k requires 0 <= k && Startable(template) => TerminalValue(Outcome(template, draws(k)))
  }

  /** The first n runs of a simulation. */
  function Trials(template: Plan, draws: nat -> Noise, n: nat): (r: seq<Plan>)
    requires n == 0 || Startable(template)
    ensures |r| == n
  {
    seq(n, TrialOf(template, draws))
  }

  /** The terminal values of the first n runs, in order. */
  function Terminals(template: Plan, draws: nat -> Noise, n: nat): (r: seq<real>)
    requires n == 0 || Startable(template)
    ensures |r| == n
  {
    seq(n, TerminalOf(template, draws))
  }

  /** The runs are the first runs of the template and the raw values their terminal values. */
  predicate Bookkept(template: Plan, draws: nat -> Noise, runs: seq<Plan>, raw: seq<real>)
  {
    && (runs == [] || Startable(template))
    && runs == Trials(template, draws, |runs|)
    && raw == Terminals(template, draws, |runs|)
  }

  /** The first n + 1 entries of a sequence are the first n and entry n. */
  lemma SeqSnoc<T>(f: int --> T, n: nat)
    requires forall k :: 0 <= k <= n ==> f.requires(k)
    ensures seq(n + 1, f) == seq(n, f) + [f(n)]
  {
  }

  /** Appending the next run and its terminal value keeps the bookkeeping. */
  lemma BookkeptAppend(template: Plan, draws: nat -> Noise, runs: seq<Plan>, raw: seq<real>)
    requires Bookkept(template, draws, runs, raw) && Startable(template)
    ensures var trial := Outcome(template, draws(|runs|));
      Bookkept(template, draws, runs + [trial], raw + [TerminalValue(trial)])
  {
    TrialsAppend(template, draws, |runs|);
    TerminalsAppend(template, draws, |runs|);
  }

  lemma TrialsAppend(template: Plan, draws: nat -> Noise, n: nat)
    requires Startable(template)
    ensures Trials(template, draws, n + 1) == Trials(template, draws, n) + [Outcome(template, draws(n))]
  {
    SeqSnoc(TrialOf(template, draws), n);
  }

  lemma TerminalsAppend(template: Plan, draws: nat -> Noise, n: nat)
    requires Startable(template)
    ensures Terminals(template, draws, n + 1)
      == Terminals(template, draws, n) + [TerminalValue(Outcome(template, draws(n)))]
  {
    SeqSnoc(TerminalOf(template, draws), n);
  }

  /** Raw value k is the terminal value of run k, which is a copy of the template run on the
      k-th draws. */
  lemma BookkeptAt(template: Plan, draws: nat -> Noise, runs: seq<Plan>, raw: seq<real>, k: nat)
    requires Bookkept(template, draws, runs, raw) && k < |runs|
    ensures runs[k] == Outcome(template, draws(k)) && raw[k] == TerminalValue(runs[k])
  {
  }

  class MonteCarlo {
    const name: string
    /** The reset copy of the scenario every run starts from. */
    const template: Plan
    /** The draws of the k-th run of the simulation (the random number stream). */
    const draws: nat -> Noise
    var runs: seq<Plan>
    var rawValues: seq<real>
    var values: seq<real>

    /** The runs so far are the first runs of the template, and the raw values their
        terminal values. */
    predicate Valid()
      reads this
    {
      Bookkept(template, draws, runs, rawValues)
    }

    /** `Monte_Carlo(scenario)`: a reset copy of the scenario, and no runs. */
    constructor (name: string, scenario: Plan, draws: nat -> Noise)
      requires Resettable(scenario)
      ensures Valid() && template == ResetPlan(scenario) && this.draws == draws
      ensures runs == [] && rawValues == [] && values == []
    {
      this.name := name;
      this.template := ResetPlan(scenario);
      this.draws := draws;
      this.runs := [];
      this.rawValues := [];
      this.values := [];
    }

    /** `run(n)`: n more runs, each on a fresh copy of the template; the template itself is a
        constant and is never touched. */
    method Run(n: nat, ghost before: seq<Plan>, ghost beforeValues: seq<real>)
      requires Valid() && Startable(template) && runs == before && rawValues == beforeValues
      modifies this
      ensures Valid() && |runs| == |before| + n
      ensures runs == Trials(template, draws, |before| + n)
      ensures rawValues == Terminals(template, draws, |before| + n)
      ensures before <= runs && beforeValues <= rawValues
    {
      for x := 0 to n
        invariant Valid() && |runs| == |before| + x
        invariant before <= runs && beforeValues <= rawValues
      {
        RunOnce(runs, rawValues);
      }
    }

    /** One iteration of `run(n)`: a fresh copy of the template is run with the next draws,
        its terminal value appended to `raw_values` and the run to `runs`. */
    method RunOnce(ghost before: seq<Plan>, ghost beforeValues: seq<real>)
      requires Valid() && Startable(template) && runs == before && rawValues == beforeValues
      modifies this
      ensures Valid()
      ensures runs == before + [Outcome(template, draws(|before|))]
      ensures rawValues == beforeValues + [TerminalValue(Outcome(template, draws(|before|)))]
    {
      var trial := Outcome(template, draws(|runs|));
      BookkeptAppend(template, draws, runs, rawValues);
      rawValues := rawValues + [TerminalValue(trial)];
      runs := runs + [trial];
    }

    /** The figures of `results(goal, remove_outliers)`: the values it reports on are kept
        in `values`, the goal likelihood is taken over the raw values. */
    method Results(goal: Option<real>, removeOutliers: bool) returns (report: Report)
      requires Valid() && rawValues != [] && |Selected(rawValues, removeOutliers)| >= 2
      modifies this
      ensures runs == old(runs) && rawValues == old(rawValues) && Valid()
      ensures values == Selected(rawValues, removeOutliers)
      ensures report.runs == |runs| && report.outliersRemoved == |rawValues| - |values|
      ensures report.median == MedianLow(values) && report.mad == Mad(values)
      ensures report.minimum == Min(values) && report.maximum == Max(values)
      ensures report.goalFraction == if goal.Some? then Some(GoalFraction(rawValues, goal.value)) else None
    {
      values := Selected(rawValues, removeOutliers);
      var fraction := if goal.Some? then Some(GoalFraction(rawValues, goal.value)) else None;
      report := Report(|runs|, |rawValues| - |values|, MedianLow(values), Mad(values), Min(values), Max(values), fraction);
    }
  }

  // ---------------------------------------------------------------------------------------
  // Properties

  /** A plan that can run can still run once reset, so the template of a simulation built
      from a runnable scenario can run. */
  lemma ResetStartable(plan: Plan)
    requires Startable(plan)
    ensures Resettable(plan) && Startable(ResetPlan(plan))
  {
    match plan
    case Single(cfg, s) =>
      RerunAfterReset(cfg, s, _ => _ => 0.0, _ => _ => 0.0);
    case Phased(pw) =>
      var r := PiecewiseModel.Reset(pw);
      forall i | 0 <= i < |r.phases|
        ensures Runnable(r.phases[i].cfg, r.phases[i].state)
      {
        RerunAfterReset(pw.phases[i].cfg, pw.phases[i].state, _ => _ => 0.0, _ => _ => 0.0);
      }
  }

  /** A run of a freshly reset scenario that rebalances reports its terminal value in
      today's money: the last nominal value discounted over the `num_years` of the run. */
  lemma TerminalValueCorrected(cfg: Settings, s: ScenarioState, noise: Noise)
    requires Runnable(cfg, s) && |s.history| == 1 && cfg.numYears >= 1
    requires cfg.rebalance && cfg.inflationRate > -1.0
    ensures var r := Outcome(Single(cfg, s), noise).state;
      TerminalValue(Single(cfg, r)) == PresentValue(Total(Last(r.uncorrected)), cfg.numYears, cfg.inflationRate)
  {
    var r := ScenarioModel.Run(cfg, s, noise);
    assert DiscountedFrom(r, 1, 0, cfg.inflationRate);
    assert |r.history| == cfg.numYears + 1;
  }

  /** The same for a piecewise scenario whose fresh phases share one inflation rate and
      rebalance: its terminal value is the last nominal value discounted over all the years
      of all the phases. */
  lemma PhasedTerminalValueCorrected(pw: Piecewise, noise: Noise, rate: real)
    requires Ready(pw) && AllFresh(pw.phases) && |pw.own.history| == 1 && rate > -1.0
    requires forall i :: 0 <= i < |pw.phases| ==>
      pw.phases[i].cfg.rebalance && pw.phases[i].cfg.inflationRate == rate
    requires Years(pw.phases, |pw.phases|) >= 1
    ensures var r := PiecewiseModel.Run(pw, noise).own;
      TerminalValue(Phased(PiecewiseModel.Run(pw, noise)))
        == PresentValue(Total(Last(r.uncorrected)), Years(pw.phases, |pw.phases|), rate)
  {
    var r := PiecewiseModel.Run(pw, noise).own;
    RunDiscounted(pw, noise, rate);
    RunLengths(pw, noise);
    LastDiscounted(r, Years(pw.phases, |pw.phases|), rate);
  }

  /** The last entry of a history discounted entry by entry from year 1 on is discounted by
      its index. */
  lemma LastDiscounted(r: ScenarioState, n: nat, rate: real)
    requires |r.uncorrected| == |r.history| == n + 1 && n >= 1 && rate > -1.0
    requires DiscountedFrom(r, 1, 0, rate)
    ensures Total(Last(r.history)) == PresentValue(Total(Last(r.uncorrected)), n, rate)
  {
    assert Total(r.history[n]) == PresentValue(Total(r.uncorrected[n]), n, rate);
  }

  /** The goal likelihood is a fraction: between 0 and 1. */
  lemma GoalFractionBounds(values: seq<real>, goal: real)
    requires values != []
    ensures 0.0 <= GoalFraction(values, goal) <= 1.0
  {
    var n := |values| as real;
    var c := CountAbove(values, goal) as real;
    ShareMonotone(0.0, c, n);
    ShareMonotone(c, n, n);
    assert n / n == 1.0;
  }

  /** Fewer raw values lie above a higher goal. */
  lemma {:induction false} CountAboveAntitone(values: seq<real>, low: real, high: real)
    requires low <= high
    ensures CountAbove(values, high) <= CountAbove(values, low)
  {
    if values != [] {
      CountAboveAntitone(values[..|values| - 1], low, high);
    }
  }

  /** The goal likelihood never rises when the goal is raised. */
  lemma GoalFractionAntitone(values: seq<real>, low: real, high: real)
    requires values != [] && low <= high
    ensures GoalFraction(values, high) <= GoalFraction(values, low)
  {
    CountAboveAntitone(values, low, high);
    ShareMonotone(CountAbove(values, high) as real, CountAbove(values, low) as real, |values| as real);
  }

  lemma ShareMonotone(a: real, b: real, n: real)
    requires a <= b && n > 0.0
    ensures a / n <= b / n
  {
    assert b / n - a / n == (b - a) / n;
  }

  /** Every value counts when the goal lies below all of them. */
  lemma {:induction false} AllAbove(values: seq<real>, goal: real)
    requires forall k :: 0 <= k < |values| ==> values[k] > goal
    ensures CountAbove(values, goal) == |values|
  {
    if values != [] {
      var p := values[..|values| - 1];
      assert forall k :: 0 <= k < |p| ==> p[k] == values[k];
      AllAbove(p, goal);
    }
  }

  /** No value counts when the goal lies at or above all of them. */
  lemma {:induction false} NoneAbove(values: seq<real>, goal: real)
    requires forall k :: 0 <= k < |values| ==> values[k] <= goal
    ensures CountAbove(values, goal) == 0
  {
    if values != [] {
      var p := values[..|values| - 1];
      assert forall k :: 0 <= k < |p| ==> p[k] == values[k];
      NoneAbove(p, goal);
    }
  }

  /** A goal below the smallest raw value is met by every run; one at or above the largest
      by none. */
  lemma GoalFractionExtremes(values: seq<real>, goal: real)
    requires values != []
    ensures goal < Min(values) ==> GoalFraction(values, goal) == 1.0
    ensures goal >= Max(values) ==> GoalFraction(values, goal) == 0.0
  {
    if goal < Min(values) {
      AllAbove(values, goal);
      var n := |values| as real;
      assert GoalFraction(values, goal) == n / n;
      assert n / n == 1.0;
    }
    if goal >= Max(values) {
      NoneAbove(values, goal);
    }
  }

  /** The report's figures agree with each other: the outliers removed are a count among the
      raw values, the median lies between the minimum and the maximum, the MAD is not
      negative, and the minimum is the smallest raw value, since the filter never drops it. */
  lemma ReportConsistent(raw: seq<real>, removeOutliers: bool)
    requires raw != []
    ensures var values := Selected(raw, removeOutliers);
      && |values| <= |raw|
      && Min(values) <= MedianLow(values) <= Max(values)
      && Mad(values) >= 0.0
      && Min(values) == Min(raw)
  {
    var values := Selected(raw, removeOutliers);
    MedianLowBounds(values);
    MadNonNegative(values);
    if removeOutliers {
      assert Subsequence(values, raw) && Min(raw) in values;
      MinKept(values, raw);
    }
  }
}
