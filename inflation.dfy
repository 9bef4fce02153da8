/** The inflation helpers `present_value` and `future_value` (stocker.py:19-25).
    The year is a natural number: the source asserts it is not negative. */
module Inflation {

  /** `base` raised to the natural power `n`, as Python's `**` with an int exponent. */
  function Pow(base: real, n: nat): real
  {
    if n == 0 then 1.0 else base * Pow(base, n - 1)
  }

  lemma {:induction false} PowNonZero(base: real, n: nat)
    requires base != 0.0
    ensures Pow(base, n) != 0.0
  {
    if n > 0 {
      PowNonZero(base, n - 1);
    }
  }

  lemma {:induction false} PowPositive(base: real, n: nat)
    requires base > 0.0
    ensures Pow(base, n) > 0.0
  {
    if n > 0 {
      PowPositive(base, n - 1);
    }
  }

  /** Growing at a non-negative rate never shrinks: (1 + r)^n >= 1 for r >= 0. */
  lemma {:induction false} PowAtLeastOne(base: real, n: nat)
    requires base >= 1.0
    ensures Pow(base, n) >= 1.0
  {
    if n > 0 {
      PowAtLeastOne(base, n - 1);
      assert base * Pow(base, n - 1) >= 1.0 * Pow(base, n - 1);
    }
  }

  lemma {:induction false} PowAdd(base: real, m: nat, n: nat)
    ensures Pow(base, m + n) == Pow(base, m) * Pow(base, n)
  {
    if m > 0 {
      PowAdd(base, m - 1, n);
      assert Pow(base, m + n) == base * Pow(base, m - 1 + n);
    }
  }

  /** The discount `1 / (1 + rate)^year` is defined unless it divides by zero. */
  predicate Discountable(year: nat, rate: real)
  {
    year == 0 || rate != -1.0
  }

  /** `present_value(value, year, rate)`: what `value`, received `year` years from now, is worth today. */
  function PresentValue(value: real, year: nat, rate: real): (r: real)
    requires Discountable(year, rate)
    ensures r * Pow(1.0 + rate, year) == value
    ensures year == 0 ==> r == value
    ensures rate > -1.0 ==> (r > 0.0 <==> value > 0.0) && (r == 0.0 <==> value == 0.0)
  {
    if year == 0 then
      value * (1.0 / Pow(1.0 + rate, year))
    else
      PowNonZero(1.0 + rate, year);
      if rate > -1.0 then PowPositive(1.0 + rate, year); value * (1.0 / Pow(1.0 + rate, year))
      else value * (1.0 / Pow(1.0 + rate, year))
  }

  /** `future_value(value, year, rate)`: what `value` grows to after `year` years at `rate`. */
  function FutureValue(value: real, year: nat, rate: real): (r: real)
    ensures year == 0 ==> r == value
    ensures rate > -1.0 ==> (r > 0.0 <==> value > 0.0) && (r == 0.0 <==> value == 0.0)
    ensures rate >= 0.0 && value >= 0.0 ==> r >= value
  {
    var growth := Pow(1.0 + rate, year);
    GrowthFacts(value, year, rate);
    value * growth
  }

  lemma GrowthFacts(value: real, year: nat, rate: real)
    ensures rate > -1.0 ==> Pow(1.0 + rate, year) > 0.0
    ensures rate >= 0.0 ==> Pow(1.0 + rate, year) >= 1.0
    ensures rate >= 0.0 && value >= 0.0 ==> value * Pow(1.0 + rate, year) >= value
  {
    if rate > -1.0 {
      PowPositive(1.0 + rate, year);
    }
    if rate >= 0.0 {
      PowAtLeastOne(1.0 + rate, year);
      if value >= 0.0 {
        MulMonotone(value, 1.0, Pow(1.0 + rate, year));
      }
    }
  }

  lemma MulMonotone(c: real, a: real, b: real)
    requires c >= 0.0 && a <= b
    ensures c * a <= c * b
  {
  }

  /** Discounting a future value over the same horizon gives back the original amount. */
  lemma PresentOfFuture(value: real, year: nat, rate: real)
    requires Discountable(year, rate)
    ensures PresentValue(FutureValue(value, year, rate), year, rate) == value
  {
    if year > 0 {
      var p := Pow(1.0 + rate, year);
      PowNonZero(1.0 + rate, year);
      var pv := PresentValue(FutureValue(value, year, rate), year, rate);
      assert pv * p == value * p;
    }
  }

  /** Growing a present value over the same horizon gives back the original amount. */
  lemma FutureOfPresent(value: real, year: nat, rate: real)
    requires Discountable(year, rate)
    ensures FutureValue(PresentValue(value, year, rate), year, rate) == value
  {
  }

  /** Discounting by `a` years and then by `b` more is discounting by `a + b` years. */
  lemma PresentValueCompose(value: real, a: nat, b: nat, rate: real)
    requires rate != -1.0
    ensures PresentValue(PresentValue(value, a, rate), b, rate) == PresentValue(value, a + b, rate)
  {
    var base := 1.0 + rate;
    PowAdd(base, a, b);
    PowNonZero(base, a + b);
    var lhs := PresentValue(PresentValue(value, a, rate), b, rate);
    var rhs := PresentValue(value, a + b, rate);
    calc {
      lhs * Pow(base, a + b);
      lhs * (Pow(base, a) * Pow(base, b));
      (lhs * Pow(base, b)) * Pow(base, a);
      PresentValue(value, a, rate) * Pow(base, a);
      value;
      rhs * Pow(base, a + b);
    }
  }

  /** At a non-negative inflation rate a non-negative amount is worth no more today. */
  lemma PresentValueDiscounts(value: real, year: nat, rate: real)
    requires rate >= 0.0 && value >= 0.0
    ensures 0.0 <= PresentValue(value, year, rate) <= value
  {
    var p := Pow(1.0 + rate, year);
    PowAtLeastOne(1.0 + rate, year);
    var pv := PresentValue(value, year, rate);
    assert pv * p == value;
    assert pv >= 0.0;
    assert pv * 1.0 <= pv * p by { MulMonotone(pv, 1.0, p); }
  }
}
