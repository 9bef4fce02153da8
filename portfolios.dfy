/** The mutable `Portfolio` object (stocker.py:114-160): a fixed list of `Position` objects
    plus normalised weights. Every method is proved to change the portfolio exactly as the
    matching function of module PortfolioModel says. */
module Portfolios {
  import opened Sums
  import opened Positions
  import opened PortfolioModel

  class Portfolio {
    const name: string
    const positions: seq<Position>
    var weights: seq<real>
    var totalWeight: real

    /** The snapshot a `copy.deepcopy` of this portfolio would hold. */
    function State(): PortfolioState
      reads this, positions
    {
      PortfolioState(name, StatesOf(positions), weights, totalWeight)
    }

    /** The class invariant: the positions are distinct objects and the state is well formed. */
    ghost predicate Valid()
      reads this, positions
    {
      Distinct(positions) && WellFormed(State())
    }

    /** `Portfolio(name, positions, weights, value)`. The given positions are adopted, not
        copied, so the caller's `Position` objects receive the initial trade. */
    constructor (name: string, positions: seq<Position>, raw: seq<real>, value: real)
      requires Distinct(positions)
      requires AcceptableWeights(raw, |positions|)
      requires value >= 0.0
      modifies positions
      ensures this.positions == positions
      ensures State() == Traded(PortfolioState(name, old(StatesOf(positions)), Normalized(raw), Sum(raw)), value)
      ensures Valid()
    {
      this.name := name;
      this.positions := positions;
      new;
      SetWeights(raw);
      Trade(value);
    }

    /** A deep copy of a portfolio in state `s`: fresh `Position` objects throughout. */
    constructor Copy(s: PortfolioState)
      ensures State() == s
      ensures fresh(positions) && Distinct(positions)
    {
      var ps := CopyPositions(s.positions);
      name := s.name;
      positions := ps;
      weights := s.weights;
      totalWeight := s.totalWeight;
    }

    /** Overwrite the weights and every position's value with those of `s`, a snapshot of
        the same assets: the in-place counterpart of replacing this portfolio by a deep copy
        of `s`. */
    method Restore(s: PortfolioState)
      requires Distinct(positions) && SameAssets(State(), s)
      modifies this, positions
      ensures State() == s
    {
      weights, totalWeight := s.weights, s.totalWeight;
      for i := 0 to |positions|
        invariant weights == s.weights && totalWeight == s.totalWeight
        invariant forall j :: 0 <= j < i ==> positions[j].State() == s.positions[j]
      {
        positions[i].value := s.positions[i].value;
      }
    }

    /** `value()`: the sum of the position values. */
    function Value(): real
      reads this, positions
    {
      Total(State())
    }

    /** `set_weights(raw)`: store each raw weight as a fraction of their sum, and the sum. */
    method SetWeights(raw: seq<real>)
      requires AcceptableWeights(raw, |positions|)
      modifies this
      ensures State() == Reweighted(old(State()), raw)
    {
      var total := Sum(raw);
      totalWeight := total;
      weights := seq(|raw|, i requires 0 <= i < |raw| => raw[i] / total);
    }

    /** `trade(amount)`: each position trades `amount * weight`. */
    method Trade(amount: real)
      requires Distinct(positions) && |weights| == |positions|
      modifies positions
      ensures State() == Traded(old(State()), amount)
    {
      ghost var before := State();
      for i := 0 to |positions|
        invariant forall j :: 0 <= j < i ==>
          positions[j].State() == TradedPosition(before.positions[j], Share(amount, weights[j]))
        invariant forall j :: i <= j < |positions| ==> positions[j].State() == before.positions[j]
      {
        positions[i].Trade(Share(amount, weights[i]));
      }
    }

    /** `rebalance(new_weights)`; the empty list stands for the absent argument. The source's
        check that the total moved by less than one unit holds here exactly. */
    method Rebalance(newWeights: seq<real>)
      requires Valid()
      requires newWeights == [] || AcceptableWeights(newWeights, |positions|)
      modifies this, positions
      ensures State() == Rebalanced(old(State()), newWeights)
      ensures Valid()
    {
      ghost var before := State();
      var value := Value();
      if newWeights != [] {
        SetWeights(newWeights);
      }
      ghost var reweighted := State();
      if value > 0.0 {
        for i := 0 to |positions|
          invariant weights == reweighted.weights && totalWeight == reweighted.totalWeight
          invariant forall j :: 0 <= j < i ==>
            positions[j].State() ==
              TradedPosition(reweighted.positions[j], Correction(weights[j], value, reweighted.positions[j].value))
          invariant forall j :: i <= j < |positions| ==> positions[j].State() == reweighted.positions[j]
        {
          var correction := Correction(weights[i], value, positions[i].value);
          positions[i].Trade(correction);
        }
      }
      ghost var expected := Rebalanced(before, newWeights);
      forall j | 0 <= j < |positions|
        ensures positions[j].State() == expected.positions[j]
      {
      }
      assert StatesOf(positions) == expected.positions;
      RebalanceConserves(before, newWeights);
      var newValue := Value();
      assert value - 1.0 < newValue < value + 1.0;
    }

    /** `simulate()`: one year of growth for every position; `draw(i)` is position i's draw. */
    method Simulate(draw: nat -> real)
      requires Distinct(positions)
      modifies positions
      ensures State() == Simulated(old(State()), draw)
    {
      ghost var before := State();
      for i := 0 to |positions|
        invariant forall j :: 0 <= j < i ==> positions[j].State() == GrownPosition(before.positions[j], draw(j))
        invariant forall j :: i <= j < |positions| ==> positions[j].State() == before.positions[j]
      {
        positions[i].Simulate(draw(i));
      }
    }
  }

  /** Fresh `Position` objects holding the given states, one per state. */
  method CopyPositions(states: seq<PositionState>) returns (ps: seq<Position>)
    ensures StatesOf(ps) == states
    ensures fresh(ps) && Distinct(ps)
  {
    ps := [];
    for i := 0 to |states|
      invariant |ps| == i && fresh(ps) && Distinct(ps)
      invariant forall j :: 0 <= j < i ==> ps[j].State() == states[j]
    {
      var p := new Position.Copy(states[i]);
      ps := ps + [p];
    }
  }
}
