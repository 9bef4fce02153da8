# stocker: the simulation engine, modelled and verified in Dafny

stocker projects the value of an investment portfolio over many years. The model covers the following parts of it.

- **Positions.** A `Position` is one asset class. It holds a value, an average yearly return and a yearly standard deviation.
  - `trade(amount)` adds an amount and floors the value at zero.
  - `simulate()` grows the value by its average return plus a normal draw, again floored at zero.
- **Portfolios.** A `Portfolio` is a fixed list of positions with weights normalised to sum to one.
  - `value()` is the sum of the positions.
  - `trade` spreads an amount over the positions by weight.
  - `rebalance` moves every position to its weight's share of the total.
  - `set_weights` installs new weights.
- **Scenarios.** A `Scenario` runs a portfolio for `num_years` years. Each year does the following, in order:
  1. It rebalances to a linear glide-path weight vector, when end weights were given.
  2. It trades in a contribution that grows geometrically.
  3. It grows the portfolio.
  4. It rebalances, when asked to.
  5. It records two snapshots and two return figures. One snapshot is inflation-corrected with `present_value`; the other is nominal. Likewise one return is corrected and the other nominal.

  `reset()` goes back to the starting snapshot.
- **Piecewise scenarios.** A `Piecewise_Scenario` runs its phases, which are child scenarios, one after the other.
  - Each phase is zeroed and then handed the previous phase's terminal value.
  - Each phase runs from the accumulated start year.
  - Each phase's recorded years are appended to the piecewise scenario's own series.
- **Monte Carlo.** A `Monte_Carlo` simulation works as follows.
  - It runs fresh copies of a reset scenario, each with its own random draws.
  - It keeps the inflation-corrected terminal value of every run.
  - It reports the following:
    - the number of runs;
    - how many high outliers `_remove_outliers` removed;
    - the low median and the MAD (median absolute deviation);
    - the minimum and the maximum;
    - the share of runs that beat a savings goal.

### How the source is represented

The source's in-place state changes are modelled as classes whose methods change their fields. Each such method is proved to change its object exactly as a pure function of the old state says.

| Class | Module | Proved against the functions of |
|---|---|---|
| `Position` | `Positions` | `Positions` |
| `Portfolio` | `Portfolios` | `PortfolioModel` |
| `Scenario` | `Scenarios` | `ScenarioModel` |
| `PiecewiseScenario` | `Piecewises` | `PiecewiseModel` |
| `MonteCarlo` | `MonteCarlos` | `MonteCarlos` itself |

The following parts are plain functions:
- the inflation helpers (`Inflation`);
- the order statistics (`Statistics`);
- the outlier filter (`Outliers`).

The properties that relate several calls are lemmas in `ScenarioProperties`, `PiecewiseProperties`, `PortfolioModel` and `MonteCarlos`.

### Conventions

- **Randomness is an input.** `noise(y)(i)` is the normal draw of position i in the year recorded as year y. The k-th Monte Carlo run uses `draws(k)`.
- **Money is `real`.** A `copy.deepcopy` snapshot is a datatype value.
- **Failures become preconditions.** The source's assertions on caller input become `requires`:
  - one weight per position;
  - no negative weight;
  - a non-negative initial value;
  - end weights of the right length;
  - a non-negative year.

  So do the places where Python would divide by zero:
  - all-zero weights;
  - `num_years == 1` with a glide path;
  - an inflation rate of -100 %.
- **Conservation is exact.** The conservation check in `rebalance` only tolerates a change of less than 1.0. The model proves the total is unchanged exactly.

### The outlier filter as coded

- **The boundary of an outlier pass.** A pass keeps only values strictly below `median_low + 4·MAD` (stocker.py:424), so a value equal to the bound is dropped.
- **The `[100]*20 + [100000]` example.** The MAD of those values is 0, so `_remove_outliers` returns them unchanged. `Outliers.TwentyHundredsUnchanged` proves this.

## Model

| member | source | states |
|---|---|---|
| Inflation.PresentValue | stocker.py:19-21 | the present value times (1 + rate)^year gives back the value; year 0 is the identity; for a rate above -100 % the result is positive, or zero, exactly when the value is |
| Inflation.FutureValue | stocker.py:23-25 | year 0 is the identity; the sign is kept for a rate above -100 %; a non-negative value never shrinks at a non-negative rate |
| Inflation.PresentOfFuture | stocker.py:19-25 | `present_value(future_value(v, y, r), y, r) == v` |
| Inflation.FutureOfPresent | stocker.py:19-25 | `future_value(present_value(v, y, r), y, r) == v` |
| Inflation.PresentValueCompose | stocker.py:19-21 | discounting by a years and then by b years is discounting by a + b years |
| Inflation.PresentValueDiscounts | stocker.py:19-21 | at a non-negative rate, the present value of a non-negative amount lies between 0 and the amount |
| Inflation.GrowthFacts | stocker.py:23-25 | (1 + r)^y is positive for r > -1 and at least 1 for r >= 0, so growth never shrinks a non-negative value |
| Positions.TradedValue | stocker.py:42-45 | the traded value is never negative and at least value + amount; when positive it is exactly value + amount |
| Positions.GrownValue | stocker.py:48-57 | the grown value is never negative; a position worth nothing stays at 0; without volatility it grows by the average return alone, floored at 0 (`max(0, value + ave·value)`), which is `value·(1 + ave)` when the return is at least -100 %; otherwise it is value + return·value + draw, floored at 0 |
| Positions.NoiseIgnoredWithoutVolatility | stocker.py:53-54 | with a standard deviation of 0 the draw has no effect |
| Positions.Position.constructor | stocker.py:36-40 | the rates are stored as fractions of the given percentages |
| Positions.Position.Copy | stocker.py:212 | a deep copy holds exactly the given position state |
| Positions.Position.Trade | stocker.py:42-45 | the new value is the floored sum, never negative |
| Positions.Position.Simulate | stocker.py:48-57 | the new state is the grown state for the given draw; never negative; a position worth 0 stays at 0 |
| PortfolioModel.Normalized | stocker.py:124-128 | each stored weight times the raw sum gives back the raw weight; non-negative raw weights give non-negative weights; the weights sum to 1 |
| PortfolioModel.Traded | stocker.py:138-140 | position i trades exactly amount·w_i; weights, assets and count are unchanged; no value goes negative; a well-formed portfolio stays well formed |
| PortfolioModel.Rebalanced | stocker.py:142-160 | the assets are kept, with one weight per position |
| PortfolioModel.Simulated | stocker.py:131-133 | each position grows on its own draw; weights and assets are unchanged; well-formedness is kept |
| PortfolioModel.SameAssetsTransitive | stocker.py:212 | having the same assets is transitive across snapshots |
| PortfolioModel.TotalNonNegative | stocker.py:135-136 | a portfolio with no negative position has a non-negative `value()` |
| PortfolioModel.EmptyPortfolio | stocker.py:135-136 | a well-formed portfolio worth 0 holds 0 in every position |
| PortfolioModel.TradeAddsAmount | stocker.py:138-140 | when no position is floored, `trade(amount)` raises `value()` by exactly the amount |
| PortfolioModel.DepositAddsAmount | stocker.py:138-140 | a non-negative trade always raises `value()` by exactly the amount |
| PortfolioModel.ShareOfProportional | stocker.py:138-140 | a position holding its share of t holds its share of t + amount (floored) after the trade |
| PortfolioModel.TradeKeepsProportion | stocker.py:138-140 | a proportional portfolio stays proportional under a trade, and its total becomes total + amount, floored at 0 |
| PortfolioModel.ProportionalFromShares | stocker.py:142-156 | positions holding their weights' shares of their total make the portfolio proportional |
| PortfolioModel.CorrectionReachesTarget | stocker.py:152-154 | trading the correction brings a position exactly to w·V |
| PortfolioModel.RebalanceConserves | stocker.py:142-160 | the total never changes (the checks at lines 159-160 hold exactly); the result is well formed and proportional; the new weights are installed even at total 0; with total V > 0 each position ends at w_i·V; at total 0 the values are untouched |
| PortfolioModel.RebalanceMovesToTargets | stocker.py:151-154 | with total V > 0 each position ends at exactly w_i·V, never negative |
| PortfolioModel.ZeroingShare | stocker.py:399 | the zeroing trade floors a position at 0 exactly when it held no more than its share |
| PortfolioModel.ZeroingEmptiesIffProportional | stocker.py:399 | trading away the whole total empties the portfolio if and only if it was proportional |
| PortfolioModel.ZeroingPositions | stocker.py:399 | after the zeroing trade, a position is 0 exactly when it held at most its target |
| PortfolioModel.ProportionalZeroes | stocker.py:399 | the zeroing trade empties a proportional portfolio |
| PortfolioModel.ZeroedWasProportional | stocker.py:399 | a portfolio the zeroing trade empties was proportional |
| PortfolioModel.HandoffTotal | stocker.py:399-403 | the hand-over leaves the deposited value plus the remainder of the zeroing trade; the remainder is 0 if and only if the portfolio was proportional; proportionality survives the hand-over |
| PortfolioModel.SimulateKeepsZero | stocker.py:131-133 | a portfolio worth 0 stays worth 0 through a year of growth |
| PortfolioModel.SimulateWithoutVolatility | stocker.py:131-133 | without volatility, a year of growth does not depend on the draws |
| Portfolios.Portfolio.constructor | stocker.py:115-122 | the portfolio holds the given positions with normalised weights, after a trade of the initial value |
| Portfolios.Portfolio.Copy | stocker.py:212 | a deep copy holds exactly the given snapshot, over fresh distinct positions |
| Portfolios.Portfolio.Restore | stocker.py:222 | the portfolio is put back to the given snapshot of the same assets |
| Portfolios.Portfolio.SetWeights | stocker.py:124-128 | the weights become the normalised raw weights; `total_weight` becomes their sum |
| Portfolios.Portfolio.Trade | stocker.py:138-140 | the new state is the traded snapshot |
| Portfolios.Portfolio.Rebalance | stocker.py:142-160 | the new state is the rebalanced snapshot, still well formed |
| Portfolios.Portfolio.Simulate | stocker.py:131-133 | the new state is the simulated snapshot for the draws |
| Portfolios.CopyPositions | stocker.py:212 | fresh, distinct position objects holding the given states |
| ScenarioModel.ExtendsTransitive | stocker.py:259-275 | a run that extends another by m years, extended by n more, extends it by m + n |
| ScenarioModel.GlideSlopes | stocker.py:350-353 | one slope per weight; slope·(num_years - 1) == end - start |
| ScenarioModel.CorrectedSnapshot | stocker.py:251-256 | the corrected snapshot has the same assets and weights; when the portfolio is proportional its value is `present_value(value, year, rate)` |
| ScenarioModel.Settled | stocker.py:243-245 | rebalancing after growth keeps assets, weights and total; with rebalancing the result is proportional |
| ScenarioModel.Recorded | stocker.py:251-275 | recording appends exactly one entry to each of the four series and keeps the portfolio; the corrected entry is the present value of the nominal one when proportional |
| ScenarioModel.BaseStep | stocker.py:233-275 | one base step extends every series by exactly one entry and keeps assets and weights; the nominal snapshot is the new portfolio; with rebalancing the corrected entry is the present value at year len(history) + start_year |
| ScenarioModel.Glided | stocker.py:362-364 | the glide-path rebalance keeps assets and total |
| ScenarioModel.PreparedPortfolio | stocker.py:362-369 | glide rebalance and contribution keep the assets |
| ScenarioModel.Prepared | stocker.py:362-369 | only the portfolio of the scenario changes before the base step |
| ScenarioModel.YearStep | stocker.py:360-372 | one iteration extends the series by exactly one year, keeps the assets, and records the discounted entry when rebalancing |
| ScenarioModel.RunYears | stocker.py:358-372 | k iterations extend the series by exactly k years; with rebalancing every new entry j is discounted by j + start_year years |
| ScenarioModel.DiscountCarried | stocker.py:251-259 | a discounted prefix stays discounted when one more discounted entry is appended |
| ScenarioModel.ResetState | stocker.py:221-226 | after reset the portfolio is the starting snapshot and the histories hold only it |
| Scenarios.Scenario.constructor | stocker.py:344-356 | the settings hold the rates as fractions and the slopes of the glide path; the state is fresh over a copy of the portfolio |
| Scenarios.Scenario.Copy | stocker.py:451 | a deep copy holds exactly the given settings and state |
| Scenarios.Scenario.Reset | stocker.py:221-226 | the new state is the reset state |
| Scenarios.Scenario.Step | stocker.py:233-275 | the new state is the base step of the old one |
| Scenarios.Scenario.GrowYear | stocker.py:235-245 | it returns the values before and after growth and leaves the settled portfolio |
| Scenarios.Scenario.Record | stocker.py:251-275 | exactly one corrected snapshot, one nominal snapshot, one corrected return and one nominal return are appended |
| Scenarios.Scenario.RunFrom | stocker.py:358-372 | the new state is num_years iterations from the old one |
| Scenarios.Scenario.Year | stocker.py:359-372 | the new state is one iteration; the running contribution moves on by one year |
| Scenarios.Scenario.PrepareYear | stocker.py:362-369 | the portfolio is glided and the contribution traded; the contribution is `addition·(1+increase)^(x+1)` |
| Scenarios.Scenario.Run | stocker.py:374-375 | the new state is the run of the old one from year 0 |
| Scenarios.BaseStepParts | stocker.py:233-275 | the base step grows, settles and appends the corrected and nominal snapshots and returns, in that order |
| Scenarios.RunYearsNext | stocker.py:360 | x + 1 iterations are one more iteration on x |
| Scenarios.ContributionStep | stocker.py:367 | `to_add += to_add·increase` turns the running amount into the next contribution |
| ScenarioProperties.CorrectedReturnFisher | stocker.py:260-267 | for year >= 1 and a positive previous value, (1 + corrected return)(1 + rate) == 1 + nominal return; a non-positive previous value records 0 |
| ScenarioProperties.ReturnsRelation | stocker.py:260-275 | each base step's two returns are related by the Fisher equation, and both are 0 when the previous value was 0 |
| ScenarioProperties.RecordedReturns | stocker.py:260-275 | the same for the returns that recording appends |
| ScenarioProperties.PreparedAddsContribution | stocker.py:362-369 | a non-negative contribution raises the portfolio's value by exactly that amount |
| ScenarioProperties.ContributionGrows | stocker.py:367 | each contribution is the previous one times (1 + increase) |
| ScenarioProperties.GlideEndpoints | stocker.py:352-363 | the glide path gives the start weights at x = 0 and the end weights at x = num_years - 1 |
| ScenarioProperties.GlideBlend | stocker.py:352-363 | each glide weight is the convex blend of start and end by x/(num_years - 1) |
| ScenarioProperties.GlideMonotone | stocker.py:352-363 | each weight moves monotonically from its start to its end weight |
| ScenarioProperties.GlideStaysAcceptable | stocker.py:363-364 | every weight vector of the glide path is one `set_weights` accepts |
| ScenarioProperties.GlideYearAcceptable | stocker.py:363-364 | the weights of one glide-path year are acceptable |
| ScenarioProperties.RunFromFresh | stocker.py:374-375 | a run from a fresh scenario yields num_years + 1 snapshots and num_years returns in each series, with the starting snapshot first |
| ScenarioProperties.ResetAfterRun | stocker.py:221-226 | resetting after any number of years gives the same state as resetting before them |
| ScenarioProperties.ResetIdempotent | stocker.py:221-226 | resetting twice is resetting once |
| ScenarioProperties.RerunAfterReset | stocker.py:221-226 | a reset scenario can run, and a run followed by a reset and a rerun equals a rerun of the reset scenario |
| ScenarioProperties.StepWithoutVolatility | stocker.py:360-372 | without volatility one iteration does not depend on the draws |
| PiecewiseModel.Handed | stocker.py:399-403 | the hand-over replaces only the portfolio: it is zeroed and then traded the value |
| PiecewiseModel.Appended | stocker.py:413-416 | the own series are extended by the phase's recorded years and the own portfolio is kept |
| PiecewiseModel.PhaseRun | stocker.py:399-406 | a phase runs num_years years after the hand-over, discounted from the accumulated start year when it rebalances |
| PiecewiseModel.RunPhase | stocker.py:397-416 | one loop iteration replaces only phase i, appends its recorded years, passes on its terminal value and moves the year on by the years recorded |
| PiecewiseModel.Replaced | stocker.py:397-416 | only phase i and the own state change; the settings are kept |
| PiecewiseModel.RunPhases | stocker.py:394-416 | after k phases the year is the sum of the spans of the first k phases, later phases are untouched, and the own series extend the starting series by that many years; with one rate the aggregate history is discounted entry by entry |
| PiecewiseModel.RunPhasesStep | stocker.py:397 | k + 1 phases are one more iteration on k phases |
| PiecewiseModel.AppendedDiscounted | stocker.py:413-416 | appending a phase run from the right start year keeps the aggregate history discounted |
| PiecewiseModel.Run | stocker.py:394-416 | the run keeps every phase's settings and leaves every phase runnable |
| PiecewiseModel.Reset | stocker.py:389-392 | every phase and the own state are reset; the settings are kept |
| PiecewiseProperties.SpansOfFresh | stocker.py:407 | over fresh phases the accumulated year is the sum of the durations |
| PiecewiseProperties.RunLengths | stocker.py:394-416 | over fresh phases the run yields 1 + Σ num_years snapshots and Σ num_years returns, with the starting snapshot first |
| PiecewiseProperties.PhaseStartYear | stocker.py:396-407 | phase k runs from the sum of the durations of the phases before it |
| PiecewiseProperties.Handoff | stocker.py:395-410 | the running value is non-negative and is phase k - 1's nominal terminal value; after the hand-over phase k is worth exactly that value if and only if it was proportional |
| PiecewiseProperties.HandedTotal | stocker.py:399-403 | the hand-over leaves exactly the value if and only if the phase was proportional |
| PiecewiseProperties.RunDiscounted | stocker.py:394-416 | with one rate and rebalancing, entry j of the aggregate corrected history is discounted by exactly j years |
| Piecewises.PiecewiseScenario.constructor | stocker.py:384-387 | the phases are kept; the base state is fresh over the first phase's portfolio, with its length, 3.5 % inflation and rebalancing |
| Piecewises.PiecewiseScenario.Run | stocker.py:394-416 | the new state is the piecewise run of the old one |
| Piecewises.PiecewiseScenario.Advance | stocker.py:398-416 | one iteration changes the object exactly as one loop step of the run |
| Piecewises.PiecewiseScenario.Reset | stocker.py:389-392 | the new state is the reset of the old one |
| Statistics.Insert | stocker.py:421 | inserting into sorted data keeps it sorted and adds exactly one occurrence |
| Statistics.Sort | stocker.py:421 | the result is sorted and a permutation of the data |
| Statistics.Min | stocker.py:473 | the minimum is one of the values and no larger than any of them |
| Statistics.Max | stocker.py:477 | the maximum is one of the values and no smaller than any of them |
| Statistics.DeviationsAt | stocker.py:422 | entry k of the deviations is the absolute deviation of value k |
| Statistics.MedianLowBounds | stocker.py:421 | the low median is one of the values and lies between the minimum and the maximum |
| Statistics.MedianBounds | stocker.py:422 | the averaging median lies between the minimum and the maximum |
| Statistics.MadNonNegative | stocker.py:422 | the MAD is never negative |
| Statistics.MajorityMedian | stocker.py:421-422 | a value held by more than half of the data is both the low median and the median |
| Statistics.ZeroDeviations | stocker.py:422 | a value occurs as often as 0 occurs among the deviations from it |
| Statistics.MajorityMad | stocker.py:422-423 | when more than half of the values are equal, the MAD is 0 |
| Outliers.KeepBelow | stocker.py:424 | the comprehension keeps an order-preserving sub-list holding exactly the values below the bound, as often as they occur |
| Outliers.Pass | stocker.py:421-424 | one pass keeps exactly the values strictly below `median_low + 4·MAD`, in order, including the minimum |
| Outliers.Trim | stocker.py:423-432 | the nested passes return a non-empty, order-preserving sub-list that keeps the minimum |
| Outliers.RemoveOutliers | stocker.py:419-433 | the result is a non-empty, order-preserving sub-list of the input that keeps its minimum |
| Outliers.SubsequenceTransitive | stocker.py:424-432 | a sub-list of a sub-list is a sub-list |
| Outliers.SubsequenceLength | stocker.py:424 | a sub-list is no longer than the list |
| Outliers.MinKept | stocker.py:424 | the kept minimum is the minimum of what is kept |
| Outliers.PassKeepsExactly | stocker.py:424 | a value is kept by a pass if and only if it occurs and lies strictly below the cutoff |
| Outliers.StopsAtZeroMad | stocker.py:423 | when the MAD is not positive, the values come back unchanged |
| Outliers.MajorityUnchanged | stocker.py:422-423 | when more than half of the values are equal, nothing is removed |
| Outliers.TwentyHundredsUnchanged | stocker.py:419-433 | twenty values of 100 and one of 100000 come back unchanged |
| MonteCarlos.ResetPlan | stocker.py:443-444 | the reset template is a state `reset()` accepts |
| MonteCarlos.Outcome | stocker.py:451-452 | a run leaves a history to read the terminal value from |
| MonteCarlos.OutcomeStartable | stocker.py:451-452 | a run leaves a plan of the same kind and settings that can run again |
| MonteCarlos.CountAbove | stocker.py:480 | the number of values above the goal is at most the number of values |
| MonteCarlos.Selected | stocker.py:457-460 | the values reported on are non-empty |
| MonteCarlos.TrialsAppend | stocker.py:450-454 | the first n + 1 runs are the first n and the template run on the n-th draws |
| MonteCarlos.TerminalsAppend | stocker.py:450-454 | the first n + 1 terminal values are the first n and the terminal value of run n |
| MonteCarlos.BookkeptAppend | stocker.py:451-454 | appending the next run and its terminal value keeps the runs the first runs of the template and the raw values their terminal values |
| MonteCarlos.BookkeptAt | stocker.py:451-454 | run k is a copy of the template run on the k-th draws, and raw value k is its terminal value `history[-1].value()` |
| MonteCarlos.MonteCarlo.constructor | stocker.py:442-447 | the template is the reset scenario and there are no runs or values yet |
| MonteCarlos.MonteCarlo.Run | stocker.py:449-454 | afterwards the runs are the first runs of the template, n more than before, each on its own draws, and the raw values their terminal values; the earlier runs and values are kept; the template never changes |
| MonteCarlos.MonteCarlo.RunOnce | stocker.py:450-454 | exactly one run of the template on the next draws and its terminal value are appended |
| MonteCarlos.MonteCarlo.Results | stocker.py:456-482 | runs and raw values are untouched; the values are the (optionally filtered) raw values; the report holds the run count, the outliers removed, the low median, the MAD, the minimum, the maximum and, when a goal is given, the goal fraction over the raw values |
| MonteCarlos.ResetStartable | stocker.py:443-444 | the reset copy of a runnable scenario can run |
| MonteCarlos.TerminalValueCorrected | stocker.py:453 | a rebalancing scenario run from a fresh state records as terminal value the last nominal value discounted over num_years |
| MonteCarlos.PhasedTerminalValueCorrected | stocker.py:453 | the same for a piecewise scenario of fresh phases sharing one rate, discounted over all of their years |
| MonteCarlos.LastDiscounted | stocker.py:453 | the last entry of a discounted history is discounted by its index |
| MonteCarlos.GoalFractionBounds | stocker.py:479-482 | the goal likelihood lies in [0, 1] |
| MonteCarlos.CountAboveAntitone | stocker.py:480 | fewer values lie above a higher goal |
| MonteCarlos.GoalFractionAntitone | stocker.py:479-482 | the goal likelihood never rises when the goal is raised |
| MonteCarlos.AllAbove | stocker.py:480 | every value counts when all lie above the goal |
| MonteCarlos.NoneAbove | stocker.py:480 | no value counts when none lies above the goal |
| MonteCarlos.GoalFractionExtremes | stocker.py:479-482 | a goal below the smallest raw value gives 1; one at or above the largest gives 0 |
| MonteCarlos.ReportConsistent | stocker.py:457-477 | the outliers removed are a count among the raw values; the median lies between the minimum and the maximum; the MAD is non-negative; the minimum reported is the smallest raw value |

## Left out

- **Randomness.** The normal draw of `simulate()` (stocker.py:54) is an input: `noise(y)(i)`, and `draws(k)` for the k-th Monte Carlo run. Nothing is claimed about its distribution.
- **Floating point.** Money and rates are exact reals. The ±1.0 tolerance of the rebalance check becomes exact equality, and rounding is not modelled.
- **Integer years.** `num_years` is a natural number. A negative `int(num_years)`, which Python treats as no years, is not modelled.
- **Report statistics and text.**
  - The mean, the sample standard deviation and the 10th/90th percentiles of `Monte_Carlo.results` are not modelled: they are library statistics over floats.
  - `MonteCarlos.MonteCarlo.Results` nevertheless requires the two values `statistics.stdev` needs.
  - The report strings, `Scenario.results` and the `__repr__` methods are text formatting and are not part of this model.
- **Plotting and the catalogs.**
  - Plotting (`plot`, `histogram`, `show_plots`) is charting and is not part of this model.
  - The predefined positions and portfolios are static configuration and are not part of this model either.
- **The example scripts.** They are demo drivers and are not part of this model.
- **Duplicate or shared positions.** A portfolio's positions must be distinct objects. The source's catalogs can share one position object between portfolios, and that aliasing is not modelled.
- **How reset rebuilds the portfolio.** `Scenarios.Scenario.Reset` restores the scenario's own portfolio object in place to the starting snapshot. The source binds a fresh deep copy instead. The resulting state is the same.
- **Piecewise phases as values.**
  - A `PiecewiseScenario` holds its phases as values (settings and state), copied from the scenarios it is built from.
  - In the source, the piecewise scenario runs and resets the caller's scenario objects themselves, so the caller sees them change. That aliasing is not modelled.
  - The phases are plain scenarios; piecewise scenarios nested inside piecewise scenarios are not modelled.
  - The base-class copy of the first phase's portfolio is held as a snapshot, since nothing trades on it.
- **Monte Carlo runs as values.** The runs are kept as values of the scenario or piecewise scenario, not as objects. The per-run deep copy is therefore implicit.
- PiecewiseProperties.RunDiscounted: proved only for fresh phases that all rebalance at one shared inflation rate. Phases with different rates are discounted phase by phase (`PiecewiseModel.PhaseRun`), not as one series.
- MonteCarlos.TerminalValueCorrected: proved only for a rebalancing scenario run from a fresh state. Without rebalancing, the corrected snapshot's value is the present value only while the positions stay proportional.
- **Determinism of whole runs.** That a whole run without volatility is independent of the draws is proved for one iteration only (`ScenarioProperties.StepWithoutVolatility`).
