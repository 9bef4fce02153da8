/** Finite sums of reals, folded from the left as Python's `sum` folds a list. */
module Sums {

  /** The sum of `xs`: the running total after adding each element in order. */
  function Sum(xs: seq<real>): real
  {
    if xs == [] then 0.0 else Sum(xs[..|xs| - 1]) + xs[|xs| - 1]
  }

  /** Summing a concatenation sums the two parts. */
  lemma {:induction false} SumAppend(xs: seq<real>, ys: seq<real>)
    ensures Sum(xs + ys) == Sum(xs) + Sum(ys)
    decreases |ys|
  {
    if ys != [] {
      var zs := xs + ys;
      assert zs[..|zs| - 1] == xs + ys[..|ys| - 1];
      SumAppend(xs, ys[..|ys| - 1]);
    } else {
      assert xs + ys == xs;
    }
  }

  /** A sum whose terms are all `c` times the terms of another is `c` times that sum. */
  lemma {:induction false} SumScaled(xs: seq<real>, ys: seq<real>, c: real)
    requires |xs| == |ys|
    requires forall i :: 0 <= i < |xs| ==> ys[i] == c * xs[i]
    ensures Sum(ys) == c * Sum(xs)
    decreases |xs|
  {
    if xs != [] {
      SumScaled(xs[..|xs| - 1], ys[..|ys| - 1], c);
    }
  }

  /** Sums distribute over pointwise addition. */
  lemma {:induction false} SumPointwise(xs: seq<real>, ys: seq<real>, zs: seq<real>)
    requires |xs| == |ys| == |zs|
    requires forall i :: 0 <= i < |xs| ==> zs[i] == xs[i] + ys[i]
    ensures Sum(zs) == Sum(xs) + Sum(ys)
    decreases |xs|
  {
    if xs != [] {
      SumPointwise(xs[..|xs| - 1], ys[..|ys| - 1], zs[..|zs| - 1]);
    }
  }

  /** Pointwise-equal sequences have equal sums. */
  lemma SumCongruent(xs: seq<real>, ys: seq<real>)
    requires |xs| == |ys|
    requires forall i :: 0 <= i < |xs| ==> xs[i] == ys[i]
    ensures Sum(xs) == Sum(ys)
  {
    assert xs == ys;
  }

  /** A sum of non-negative terms is non-negative. */
  lemma {:induction false} SumNonNegative(xs: seq<real>)
    requires forall i :: 0 <= i < |xs| ==> xs[i] >= 0.0
    ensures Sum(xs) >= 0.0
    decreases |xs|
  {
    if xs != [] {
      SumNonNegative(xs[..|xs| - 1]);
    }
  }

  /** A sum of zeros is zero. */
  lemma {:induction false} SumZeros(xs: seq<real>)
    requires forall i :: 0 <= i < |xs| ==> xs[i] == 0.0
    ensures Sum(xs) == 0.0
    decreases |xs|
  {
    if xs != [] {
      SumZeros(xs[..|xs| - 1]);
    }
  }

  /** Sums are monotone in every term. */
  lemma {:induction false} SumMonotone(xs: seq<real>, ys: seq<real>)
    requires |xs| == |ys|
    requires forall i :: 0 <= i < |xs| ==> xs[i] <= ys[i]
    ensures Sum(xs) <= Sum(ys)
    decreases |xs|
  {
    if xs != [] {
      SumMonotone(xs[..|xs| - 1], ys[..|ys| - 1]);
    }
  }

  /** If every term of `xs` is at most the matching term of `ys` and the two sums agree,
      then the sequences agree term by term. */
  lemma {:induction false} SumTight(xs: seq<real>, ys: seq<real>)
    requires |xs| == |ys|
    requires forall i :: 0 <= i < |xs| ==> xs[i] <= ys[i]
    requires Sum(xs) == Sum(ys)
    ensures forall i :: 0 <= i < |xs| ==> xs[i] == ys[i]
    decreases |xs|
  {
    if xs != [] {
      var n := |xs| - 1;
      SumMonotone(xs[..n], ys[..n]);
      SumTight(xs[..n], ys[..n]);
      forall i | 0 <= i < |xs| ensures xs[i] == ys[i] {
        if i < n {
          assert xs[..n][i] == xs[i] && ys[..n][i] == ys[i];
        }
      }
    }
  }

  /** Every element multiplied by `c`; the sum is multiplied by `c` too. */
  function Scaled(xs: seq<real>, c: real): (ys: seq<real>)
    ensures |ys| == |xs| && forall i :: 0 <= i < |xs| ==> ys[i] == c * xs[i]
    ensures Sum(ys) == c * Sum(xs)
  {
    var ys := seq(|xs|, i requires 0 <= i < |xs| => c * xs[i]);
    SumScaled(xs, ys, c);
    ys
  }
}
