/** A single asset-class holding (`Position`, stocker.py:34-57): a named amount of money
    with an average yearly return and a yearly standard deviation, both as fractions. */
module Positions {

  /** A deep copy of a Position: its name, its growth parameters and its current value. */
  datatype PositionState = PositionState(name: string, aveReturn: real, stdDev: real, value: real)

  /** The value left by `trade(amount)`: the amount is added, and a balance that would go
      below zero is floored at zero instead (a withdrawal never overdraws). */
  function TradedValue(value: real, amount: real): (r: real)
    ensures r >= 0.0 && r >= value + amount
    ensures r > 0.0 ==> r == value + amount
  {
    var v := value + amount;
    if v < 0.0 then 0.0 else v
  }

  /** The value left by `simulate()` when the normal draw (of standard deviation
      `value * stdDev`) came out as `noise`. A position worth nothing draws nothing and stays
      at zero; one whose standard deviation is not positive grows by its average return alone,
      floored at zero. */
  function GrownValue(value: real, aveReturn: real, stdDev: real, noise: real): (r: real)
    ensures r >= 0.0
    ensures value <= 0.0 ==> r == 0.0
    ensures value > 0.0 && stdDev <= 0.0 ==> r == TradedValue(value, aveReturn * value)
    ensures value > 0.0 && stdDev <= 0.0 && aveReturn >= -1.0 ==> r == value * (1.0 + aveReturn)
    ensures value > 0.0 && stdDev > 0.0 ==> r == TradedValue(value, aveReturn * value + noise)
  {
    var thisReturn :=
      if value > 0.0 then aveReturn * value + (if stdDev > 0.0 then noise else 0.0) else 0.0;
    TradedValue(value, thisReturn)
  }

  /** Without volatility the draw plays no part: growth is deterministic. */
  lemma NoiseIgnoredWithoutVolatility(value: real, aveReturn: real, stdDev: real, n1: real, n2: real)
    requires stdDev <= 0.0
    ensures GrownValue(value, aveReturn, stdDev, n1) == GrownValue(value, aveReturn, stdDev, n2)
  {
  }

  function TradedPosition(s: PositionState, amount: real): PositionState
  {
    s.(value := TradedValue(s.value, amount))
  }

  function GrownPosition(s: PositionState, noise: real): PositionState
  {
    s.(value := GrownValue(s.value, s.aveReturn, s.stdDev, noise))
  }

  class Position {
    const name: string
    const aveReturn: real
    const stdDev: real
    var value: real

    /** `Position(name, ave_return, std_dev, value)`: the rates are given in percent per year. */
    constructor (name: string, aveReturnPercent: real, stdDevPercent: real, value: real)
      ensures State() == PositionState(name, aveReturnPercent / 100.0, stdDevPercent / 100.0, value)
    {
      this.name := name;
      this.value := value;
      this.aveReturn := aveReturnPercent / 100.0;
      this.stdDev := stdDevPercent / 100.0;
    }

    /** A deep copy of a position in state `s`. */
    constructor Copy(s: PositionState)
      ensures State() == s
    {
      name, aveReturn, stdDev, value := s.name, s.aveReturn, s.stdDev, s.value;
    }

    function State(): PositionState
      reads this
    {
      PositionState(name, aveReturn, stdDev, value)
    }

    /** `trade(amount)`: deposit (or, for a negative amount, withdraw) and floor at zero. */
    method Trade(amount: real)
      modifies this
      ensures State() == TradedPosition(old(State()), amount)
      ensures value >= 0.0
    {
      value := value + amount;
      if value < 0.0 {
        value := 0.0;
      }
    }

    /** `simulate()`: one year of growth, with `noise` standing for the normal draw. */
    method Simulate(noise: real)
      modifies this
      ensures State() == GrownPosition(old(State()), noise)
      ensures value >= 0.0
      ensures old(value) == 0.0 ==> value == 0.0
    {
      var thisReturn := 0.0;
      if value > 0.0 {
        thisReturn := thisReturn + aveReturn * value;
        if stdDev > 0.0 {
          thisReturn := thisReturn + noise;
        }
      }
      value := value + thisReturn;
      if value < 0.0 {
        value := 0.0;
      }
    }
  }

  /** The states of a list of positions, in order. */
  function StatesOf(ps: seq<Position>): (r: seq<PositionState>)
    reads ps
    ensures |r| == |ps| && forall i :: 0 <= i < |ps| ==> r[i] == ps[i].State()
  {
    seq(|ps|, i requires 0 <= i < |ps| reads ps => ps[i].State())
  }

  /** No position object occurs twice in the list. */
  predicate Distinct(ps: seq<Position>)
  {
    forall i, j :: 0 <= i < j < |ps| ==> ps[i] != ps[j]
  }
}
