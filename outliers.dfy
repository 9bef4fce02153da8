/** `_remove_outliers` (stocker.py:419-433): up to three passes, each of which keeps the
    values strictly below `median_low + 4 * MAD` of the values it starts from, and stops as
    soon as the MAD of what is left is not positive. */
module Outliers {
  import opened Statistics

  /** `s` is `t` with some entries left out, the rest in their order. */
  predicate Subsequence(s: seq<real>, t: seq<real>)
    decreases |t|
  {
    if t == [] then s == []
    else (s != [] && s[0] == t[0] && Subsequence(s[1..], t[1..])) || Subsequence(s, t[1..])
  }

  /** `[v for v in s if v < bound]`. */
  function KeepBelow(s: seq<real>, bound: real): (r: seq<real>)
    ensures Subsequence(r, s)
    ensures forall v :: multiset(r)[v] == if v < bound then multiset(s)[v] else 0
  {
    if s == [] then []
    else
      var rest := KeepBelow(s[1..], bound);
      assert s == [s[0]] + s[1..];
      if s[0] < bound then [s[0]] + rest else rest
  }

  /** The bound one pass filters against: `median_low + 4 * MAD`. */
  function Cutoff(s: seq<real>): real
    requires s != []
  {
    MedianLow(s) + 4.0 * Mad(s)
  }

  /** One pass of the filter, on values whose MAD is positive. The smallest value lies below
      the cutoff, so the pass keeps at least it. */
  function Pass(s: seq<real>): (r: seq<real>)
    requires s != [] && Mad(s) > 0.0
    ensures r != [] && Min(s) in r && Subsequence(r, s)
    ensures forall v :: multiset(r)[v] == if v < Cutoff(s) then multiset(s)[v] else 0
  {
    var r := KeepBelow(s, Cutoff(s));
    MedianLowBounds(s);
    assert multiset(s)[Min(s)] > 0;
    assert Min(s) in multiset(r);
    r
  }

  /** The nested passes: at most `passes` of them, each only while the MAD is positive. */
  function Trim(s: seq<real>, passes: nat): (r: seq<real>)
    requires s != []
    ensures r != [] && Subsequence(r, s) && Min(s) in r && |r| <= |s|
    decreases passes
  {
    if passes == 0 || Mad(s) <= 0.0 then
      SubsequenceReflexive(s);
      s
    else
      var p := Pass(s);
      var r := Trim(p, passes - 1);
      SubsequenceTransitive(r, p, s);
      SubsequenceLength(p, s);
      MinKept(p, s);
      r
  }

  /** `_remove_outliers(values)`: an order-preserving selection of the values that keeps
      the smallest, so a non-empty input gives a non-empty output. */
  function RemoveOutliers(values: seq<real>): (r: seq<real>)
    requires values != []
    ensures r != [] && Subsequence(r, values) && Min(values) in r && |r| <= |values|
  {
    Trim(values, 3)
  }

  // ---------------------------------------------------------------------------------------
  // Properties

  lemma {:induction false} SubsequenceReflexive(s: seq<real>)
    ensures Subsequence(s, s)
  {
    if s != [] {
      SubsequenceReflexive(s[1..]);
    }
  }

  lemma {:induction false} SubsequenceLength(s: seq<real>, t: seq<real>)
    requires Subsequence(s, t)
    ensures |s| <= |t|
    decreases |t|
  {
    if t != [] {
      if s != [] && s[0] == t[0] && Subsequence(s[1..], t[1..]) {
        SubsequenceLength(s[1..], t[1..]);
      } else {
        SubsequenceLength(s, t[1..]);
      }
    }
  }

  /** Every entry of a subsequence is an entry of the sequence. */
  lemma {:induction false} SubsequenceMembers(s: seq<real>, t: seq<real>)
    requires Subsequence(s, t)
    ensures forall v :: v in s ==> v in t
    decreases |t|
  {
    if t != [] {
      if s != [] && s[0] == t[0] && Subsequence(s[1..], t[1..]) {
        SubsequenceMembers(s[1..], t[1..]);
        assert forall v :: v in s ==> v == s[0] || v in s[1..];
      } else {
        SubsequenceMembers(s, t[1..]);
      }
    }
  }

  lemma {:induction false} SubsequenceTransitive(r: seq<real>, s: seq<real>, t: seq<real>)
    requires Subsequence(r, s) && Subsequence(s, t)
    ensures Subsequence(r, t)
    decreases |t|
  {
    if t != [] {
      if s != [] && s[0] == t[0] && Subsequence(s[1..], t[1..]) {
        if r != [] && r[0] == s[0] && Subsequence(r[1..], s[1..]) {
          SubsequenceTransitive(r[1..], s[1..], t[1..]);
        } else {
          SubsequenceTransitive(r, s[1..], t[1..]);
        }
      } else {
        SubsequenceTransitive(r, s, t[1..]);
      }
    }
  }

  /** The smallest value of `t` that survives into its subsequence `s` is also the smallest
      value of `s`. */
  lemma MinKept(s: seq<real>, t: seq<real>)
    requires s != [] && Subsequence(s, t) && Min(t) in s
    ensures Min(s) == Min(t)
  {
    SubsequenceMembers(s, t);
    assert Min(s) in t;
  }

  /** Each pass keeps exactly the values strictly below its cutoff: a value is kept, as
      often as it occurs, if and only if it lies below `median_low + 4 * MAD`. */
  lemma PassKeepsExactly(s: seq<real>, v: real)
    requires s != [] && Mad(s) > 0.0
    ensures v in Pass(s) <==> v in s && v < Cutoff(s)
  {
    var r := Pass(s);
    assert multiset(r)[v] == if v < Cutoff(s) then multiset(s)[v] else 0;
    assert v in r <==> v in multiset(r);
    assert v in s <==> v in multiset(s);
  }

  /** Once the MAD is not positive, the values come back unchanged. */
  lemma StopsAtZeroMad(values: seq<real>)
    requires values != [] && Mad(values) <= 0.0
    ensures RemoveOutliers(values) == values
  {
  }

  /** When more than half of the values are equal, their MAD is 0 and no value is removed,
      however far the others lie from the rest. */
  lemma MajorityUnchanged(values: seq<real>, c: real)
    requires multiset(values)[c] * 2 > |values|
    ensures values != [] && RemoveOutliers(values) == values
  {
    MajorityMad(values, c);
  }

  /** Twenty values of 100 and one of 100000 come back unchanged: their MAD is 0. */
  lemma TwentyHundredsUnchanged()
    ensures var values := seq(20, _ => 100.0) + [100000.0];
      values != [] && RemoveOutliers(values) == values
  {
    var values := seq(20, _ => 100.0) + [100000.0];
    Repeated(20, 100.0);
    assert multiset(values) == multiset(seq(20, _ => 100.0)) + multiset{100000.0};
    MajorityUnchanged(values, 100.0);
  }

  lemma {:induction false} Repeated(n: nat, c: real)
    ensures multiset(seq(n, _ => c))[c] == n
  {
    if n > 0 {
      Repeated(n - 1, c);
      assert seq(n, _ => c) == seq(n - 1, _ => c) + [c];
    }
  }
}
