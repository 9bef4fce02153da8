/** Portfolio snapshots as values (a `copy.deepcopy` of a `Portfolio`, stocker.py:114-160)
    and the effect of each portfolio operation on them. The `Portfolio` class in module
    Portfolios is proved to act on its state exactly as these functions say. */
module PortfolioModel {
  import opened Sums
  import opened Positions

  datatype PortfolioState = PortfolioState(
    name: string,
    positions: seq<PositionState>,
    weights: seq<real>,
    totalWeight: real)

  predicate NonNegative(xs: seq<real>)
  {
    forall i :: 0 <= i < |xs| ==> xs[i] >= 0.0
  }

  function Values(p: PortfolioState): (vs: seq<real>)
    ensures |vs| == |p.positions| && forall i :: 0 <= i < |vs| ==> vs[i] == p.positions[i].value
  {
    seq(|p.positions|, i requires 0 <= i < |p.positions| => p.positions[i].value)
  }

  /** `value()`: the sum of the position values. */
  function Total(p: PortfolioState): real
  {
    Sum(Values(p))
  }

  /** Raw weights that `set_weights` takes without failing: one per position, none negative
      (both asserted), and not all zero (their sum is a divisor). */
  predicate AcceptableWeights(raw: seq<real>, n: nat)
  {
    |raw| == n && NonNegative(raw) && (raw == [] || Sum(raw) != 0.0)
  }

  /** The weights `set_weights` stores: each raw weight as a fraction of their sum. */
  function Normalized(raw: seq<real>): (w: seq<real>)
    requires raw == [] || Sum(raw) != 0.0
    ensures |w| == |raw|
    ensures forall i :: 0 <= i < |raw| ==> w[i] * Sum(raw) == raw[i]
    ensures NonNegative(raw) ==> NonNegative(w)
    ensures raw != [] ==> Sum(w) == 1.0
  {
    var total := Sum(raw);
    var w := seq(|raw|, i requires 0 <= i < |raw| => raw[i] / total);
    if raw == [] then w
    else
      SumScaled(raw, w, 1.0 / total);
      if NonNegative(raw) then SumNonNegative(raw); w else w
  }

  /** The invariant every portfolio keeps once constructed: one non-negative weight per
      position, weights summing to one (when there are any), no negative position value. */
  predicate WellFormed(p: PortfolioState)
  {
    && |p.weights| == |p.positions|
    && NonNegative(p.weights)
    && (p.weights != [] ==> Sum(p.weights) == 1.0)
    && NonNegative(Values(p))
  }

  /** Every position holds its weight's share of the total. */
  predicate Proportional(p: PortfolioState)
    requires |p.weights| == |p.positions|
  {
    forall i :: 0 <= i < |p.positions| ==> p.positions[i].value == p.weights[i] * Total(p)
  }

  /** The same portfolio name and the same assets, position by position (names and rates);
      weights and values may differ. */
  predicate SameAssets(p: PortfolioState, q: PortfolioState)
  {
    && p.name == q.name
    && |p.positions| == |q.positions|
    && forall i :: 0 <= i < |p.positions| ==>
         && p.positions[i].name == q.positions[i].name
         && p.positions[i].aveReturn == q.positions[i].aveReturn
         && p.positions[i].stdDev == q.positions[i].stdDev
  }

  lemma SameAssetsTransitive(p: PortfolioState, q: PortfolioState, r: PortfolioState)
    requires SameAssets(p, q) && SameAssets(q, r)
    ensures SameAssets(p, r)
  {
  }

  /** Only the values may differ: same assets and same weights. */
  predicate SameShape(p: PortfolioState, q: PortfolioState)
  {
    SameAssets(p, q) && p.weights == q.weights && p.totalWeight == q.totalWeight
  }

  /** `set_weights(raw)`. */
  function Reweighted(p: PortfolioState, raw: seq<real>): PortfolioState
    requires raw == [] || Sum(raw) != 0.0
  {
    p.(weights := Normalized(raw), totalWeight := Sum(raw))
  }

  /** The part of a portfolio trade that falls on a position of the given weight. */
  function Share(amount: real, weight: real): real
  {
    amount * weight
  }

  /** What `rebalance` trades on a position to bring it to its weight's share of `total`. */
  function Correction(weight: real, total: real, value: real): real
  {
    Target(weight, total) - value
  }

  /** A position's share of `total` under its weight. */
  function Target(weight: real, total: real): real
  {
    weight * total
  }

  /** `trade(amount)`: position i trades `amount * weight_i`. */
  function Traded(p: PortfolioState, amount: real): (r: PortfolioState)
    requires |p.weights| == |p.positions|
    ensures |r.positions| == |p.positions|
    ensures forall i :: 0 <= i < |p.positions| ==>
      r.positions[i] == TradedPosition(p.positions[i], Share(amount, p.weights[i]))
    ensures SameShape(p, r)
    ensures NonNegative(Values(r))
    ensures NonNegative(p.weights) && (p.weights != [] ==> Sum(p.weights) == 1.0) ==> WellFormed(r)
  {
    p.(positions := seq(|p.positions|, i requires 0 <= i < |p.positions| =>
                          TradedPosition(p.positions[i], Share(amount, p.weights[i]))))
  }

  /** `rebalance(new_weights)`; an empty `newWeights` stands for the absent argument (both
      are false in Python). The total is read first, new weights are installed next, and
      only a portfolio worth something is moved to `weight_i * total`. */
  function Rebalanced(p: PortfolioState, newWeights: seq<real>): (r: PortfolioState)
    requires |p.weights| == |p.positions|
    requires newWeights == [] || AcceptableWeights(newWeights, |p.positions|)
    ensures SameAssets(p, r) && |r.weights| == |r.positions|
  {
    var value := Total(p);
    var q := if newWeights != [] then Reweighted(p, newWeights) else p;
    if value > 0.0 then
      q.(positions := seq(|q.positions|, i requires 0 <= i < |q.positions| =>
                            TradedPosition(q.positions[i], Correction(q.weights[i], value, q.positions[i].value))))
    else q
  }

  /** `simulate()`: every position grows independently; `draw(i)` is position i's normal draw. */
  function Simulated(p: PortfolioState, draw: nat -> real): (r: PortfolioState)
    ensures |r.positions| == |p.positions|
    ensures forall i :: 0 <= i < |p.positions| ==> r.positions[i] == GrownPosition(p.positions[i], draw(i))
    ensures SameShape(p, r)
    ensures NonNegative(Values(r))
    ensures WellFormed(p) ==> WellFormed(r)
  {
    p.(positions := seq(|p.positions|, i requires 0 <= i < |p.positions| =>
                          GrownPosition(p.positions[i], draw(i))))
  }

  // ---------------------------------------------------------------------------------------
  // Properties of the portfolio operations

  lemma TotalNonNegative(p: PortfolioState)
    requires NonNegative(Values(p))
    ensures Total(p) >= 0.0
  {
    SumNonNegative(Values(p));
  }

  /** A well-formed portfolio worth nothing holds nothing in any position. */
  lemma {:induction false} EmptyPortfolio(p: PortfolioState)
    requires WellFormed(p) && Total(p) == 0.0
    ensures forall i :: 0 <= i < |p.positions| ==> p.positions[i].value == 0.0
  {
    var zeros := seq(|p.positions|, i => 0.0);
    SumZeros(zeros);
    SumTight(zeros, Values(p));
  }

  /** `trade(amount)` raises the total by exactly `amount` when no position is floored,
      which is always the case for a deposit. */
  lemma {:induction false} TradeAddsAmount(p: PortfolioState, amount: real)
    requires WellFormed(p) && p.positions != []
    requires forall i :: 0 <= i < |p.positions| ==> p.positions[i].value + amount * p.weights[i] >= 0.0
    ensures Total(Traded(p, amount)) == Total(p) + amount
  {
    var r := Traded(p, amount);
    var shares := seq(|p.weights|, i requires 0 <= i < |p.weights| => amount * p.weights[i]);
    SumScaled(p.weights, shares, amount);
    forall i | 0 <= i < |p.positions|
      ensures Values(r)[i] == Values(p)[i] + shares[i]
    {
      assert r.positions[i] == TradedPosition(p.positions[i], Share(amount, p.weights[i]));
    }
    SumPointwise(Values(p), shares, Values(r));
  }

  lemma DepositAddsAmount(p: PortfolioState, amount: real)
    requires WellFormed(p) && p.positions != [] && amount >= 0.0
    ensures Total(Traded(p, amount)) == Total(p) + amount
  {
    forall i | 0 <= i < |p.positions|
      ensures p.positions[i].value + amount * p.weights[i] >= 0.0
    {
      assert Values(p)[i] >= 0.0 && p.weights[i] >= 0.0;
    }
    TradeAddsAmount(p, amount);
  }

  /** Trading a position that holds exactly its share of `t` leaves it holding its share
      of `t + amount`, floored at zero. */
  lemma ShareOfProportional(w: real, t: real, amount: real)
    requires w >= 0.0
    ensures TradedValue(Target(w, t), Share(amount, w)) == Target(w, if t + amount < 0.0 then 0.0 else t + amount)
  {
    assert Target(w, t) + Share(amount, w) == w * (t + amount);
    if t + amount < 0.0 {
      assert w * (t + amount) <= 0.0;
    }
  }

  /** A proportional portfolio stays proportional under `trade(amount)`, and its total
      becomes `total + amount`, floored at zero. */
  lemma {:induction false} TradeKeepsProportion(p: PortfolioState, amount: real)
    requires WellFormed(p) && Proportional(p) && p.positions != []
    ensures var r := Traded(p, amount);
      var t := if Total(p) + amount < 0.0 then 0.0 else Total(p) + amount;
      Total(r) == t && Proportional(r)
  {
    var r := Traded(p, amount);
    var v := Total(p);
    var t := if v + amount < 0.0 then 0.0 else v + amount;
    forall i | 0 <= i < |p.positions|
      ensures r.positions[i].value == Target(r.weights[i], t)
    {
      assert p.positions[i].value == Target(p.weights[i], v);
      ShareOfProportional(p.weights[i], v, amount);
    }
    SumScaled(r.weights, Values(r), t);
    ProportionalFromShares(r, t);
  }

  /** A portfolio whose positions hold their shares of `t`, and whose total is `t`, is proportional. */
  lemma ProportionalFromShares(p: PortfolioState, t: real)
    requires |p.weights| == |p.positions|
    requires forall i :: 0 <= i < |p.positions| ==> p.positions[i].value == Target(p.weights[i], t)
    requires Total(p) == t
    ensures Proportional(p)
  {
  }

  /** Trading the correction onto a position brings it to exactly its target. */
  lemma CorrectionReachesTarget(w: real, total: real, v: real)
    requires w >= 0.0 && total >= 0.0
    ensures TradedValue(v, Correction(w, total, v)) == Target(w, total) >= 0.0
  {
  }

  /** `rebalance` never changes the total, and leaves the portfolio well formed and
      proportional. When the total V was positive each position ends at exactly
      `w_i * V` under the (possibly new) weights; when it was zero the values are untouched
      but non-empty new weights are still installed. */
  lemma {:induction false} RebalanceConserves(p: PortfolioState, newWeights: seq<real>)
    requires WellFormed(p)
    requires newWeights == [] || AcceptableWeights(newWeights, |p.positions|)
    ensures var r := Rebalanced(p, newWeights);
      && WellFormed(r)
      && Total(r) == Total(p)
      && Proportional(r)
      && r.weights == (if newWeights != [] then Normalized(newWeights) else p.weights)
      && (Total(p) > 0.0 ==> forall i :: 0 <= i < |r.positions| ==> r.positions[i].value == r.weights[i] * Total(p))
      && (Total(p) == 0.0 ==> Values(r) == Values(p))
  {
    TotalNonNegative(p);
    if Total(p) > 0.0 {
      RebalanceMovesToTargets(p, newWeights);
    } else {
      EmptyPortfolio(p);
      var r := Rebalanced(p, newWeights);
      assert Values(r) == Values(p);
      ProportionalFromShares(r, 0.0);
    }
  }

  /** A portfolio worth V > 0 is rebalanced to exactly `w_i * V` in each position. */
  lemma RebalanceMovesToTargets(p: PortfolioState, newWeights: seq<real>)
    requires WellFormed(p) && Total(p) > 0.0
    requires newWeights == [] || AcceptableWeights(newWeights, |p.positions|)
    ensures var r := Rebalanced(p, newWeights);
      && (forall i :: 0 <= i < |r.positions| ==> r.positions[i].value == Target(r.weights[i], Total(p)) >= 0.0)
      && Total(r) == Total(p)
      && Proportional(r)
  {
    var v := Total(p);
    var r := Rebalanced(p, newWeights);
    var q := if newWeights != [] then Reweighted(p, newWeights) else p;
    assert r == q.(positions := seq(|q.positions|, i requires 0 <= i < |q.positions| =>
                          TradedPosition(q.positions[i], Correction(q.weights[i], v, q.positions[i].value))));
    forall i | 0 <= i < |r.positions|
      ensures r.positions[i].value == Target(r.weights[i], v) >= 0.0
    {
      CorrectionReachesTarget(q.weights[i], v, q.positions[i].value);
    }
    SumScaled(r.weights, Values(r), v);
    ProportionalFromShares(r, v);
  }

  /** The zeroing trade floors a position at zero exactly when it held no more than its share. */
  lemma ZeroingShare(v: real, w: real, total: real)
    ensures TradedValue(v, Share(-total, w)) == 0.0 <==> v <= Target(w, total)
  {
  }

  /** Trading away the whole total ("zero the portfolio") empties it exactly when the
      portfolio was proportional: otherwise an over-weight position keeps a remainder. */
  lemma ZeroingEmptiesIffProportional(p: PortfolioState)
    requires WellFormed(p)
    ensures Total(Traded(p, -Total(p))) == 0.0 <==> Proportional(p)
  {
    if Proportional(p) {
      ProportionalZeroes(p);
    }
    if Total(Traded(p, -Total(p))) == 0.0 {
      ZeroedWasProportional(p);
    }
  }

  /** A position ends at zero after the zeroing trade exactly when it held no more than its
      weight's share of the total. */
  predicate ZeroedBelowTargets(p: PortfolioState, r: PortfolioState, targets: seq<real>)
    requires |p.positions| == |r.positions| == |targets|
  {
    forall i :: 0 <= i < |p.positions| ==> (Values(r)[i] == 0.0 <==> Values(p)[i] <= targets[i])
  }

  lemma ZeroingPositions(p: PortfolioState, targets: seq<real>)
    requires WellFormed(p) && |targets| == |p.positions|
    requires forall i :: 0 <= i < |targets| ==> targets[i] == Target(p.weights[i], Total(p))
    ensures ZeroedBelowTargets(p, Traded(p, -Total(p)), targets)
  {
    var v := Total(p);
    var r := Traded(p, -v);
    forall i | 0 <= i < |p.positions|
      ensures Values(r)[i] == 0.0 <==> Values(p)[i] <= targets[i]
    {
      ZeroingShare(p.positions[i].value, p.weights[i], v);
    }
  }

  lemma ProportionalZeroes(p: PortfolioState)
    requires WellFormed(p) && Proportional(p)
    ensures Total(Traded(p, -Total(p))) == 0.0
  {
    var v := Total(p);
    var targets := seq(|p.weights|, i requires 0 <= i < |p.weights| => Target(p.weights[i], v));
    ZeroingPositions(p, targets);
    SumZeros(Values(Traded(p, -v)));
  }

  lemma ZeroedWasProportional(p: PortfolioState)
    requires WellFormed(p) && Total(Traded(p, -Total(p))) == 0.0
    ensures Proportional(p)
  {
    var v := Total(p);
    var r := Traded(p, -v);
    var targets := seq(|p.weights|, i requires 0 <= i < |p.weights| => Target(p.weights[i], v));
    ZeroingPositions(p, targets);
    EmptyPortfolio(r);
    if p.weights == [] {
      assert Values(p) == [];
    } else {
      SumScaled(p.weights, targets, v);
    }
    SumTight(Values(p), targets);
  }

  /** The hand-over between piecewise phases: zero the portfolio, then trade in `value`.
      The result is worth `value` plus whatever the zeroing trade left behind, and that
      remainder vanishes exactly when the portfolio was proportional. A proportional
      portfolio stays proportional through the hand-over. */
  lemma HandoffTotal(p: PortfolioState, value: real)
    requires WellFormed(p) && p.positions != [] && value >= 0.0
    ensures var leftover := Total(Traded(p, -Total(p)));
      && Total(Traded(Traded(p, -Total(p)), value)) == leftover + value
      && (leftover == 0.0 <==> Proportional(p))
      && (Proportional(p) ==> Proportional(Traded(Traded(p, -Total(p)), value)))
  {
    var z := Traded(p, -Total(p));
    DepositAddsAmount(z, value);
    ZeroingEmptiesIffProportional(p);
    if Proportional(p) {
      TradeKeepsProportion(p, -Total(p));
      TradeKeepsProportion(z, value);
    }
  }

  /** A portfolio worth nothing stays worth nothing through a year of growth. */
  lemma {:induction false} SimulateKeepsZero(p: PortfolioState, draw: nat -> real)
    requires WellFormed(p) && Total(p) == 0.0
    ensures Total(Simulated(p, draw)) == 0.0
  {
    EmptyPortfolio(p);
    var r := Simulated(p, draw);
    forall i | 0 <= i < |r.positions| ensures Values(r)[i] == 0.0 {
      assert p.positions[i].value == 0.0;
    }
    SumZeros(Values(r));
  }

  /** Positions without volatility make a year of growth independent of the draws. */
  lemma SimulateWithoutVolatility(p: PortfolioState, d1: nat -> real, d2: nat -> real)
    requires forall i :: 0 <= i < |p.positions| ==> p.positions[i].stdDev <= 0.0
    ensures Simulated(p, d1) == Simulated(p, d2)
  {
    var r1, r2 := Simulated(p, d1), Simulated(p, d2);
    forall i | 0 <= i < |p.positions| ensures r1.positions[i] == r2.positions[i] {
      NoiseIgnoredWithoutVolatility(p.positions[i].value, p.positions[i].aveReturn,
        p.positions[i].stdDev, d1(i), d2(i));
    }
    assert r1.positions == r2.positions;
  }
}
