/** The order statistics the outlier filter and the Monte Carlo report read: `sorted`,
    `statistics.median_low`, the averaging median of NumPy and the median absolute deviation
    of astropy (`median(|x - median(x)|)`), `min` and `max`. */
module Statistics {

  predicate Sorted(s: seq<real>)
  {
    forall i, j :: 0 <= i < j < |s| ==> s[i] <= s[j]
  }

  /** `s` sorted with `x` put in its place. */
  function Insert(s: seq<real>, x: real): (r: seq<real>)
    requires Sorted(s)
    ensures Sorted(r) && multiset(r) == multiset(s) + multiset{x} && |r| == |s| + 1
  {
    if s == [] then [x]
    else if x <= s[0] then [x] + s
    else
      var rest := Insert(s[1..], x);
      assert s == [s[0]] + s[1..];
      Below(s, x, rest);
      [s[0]] + rest
  }

  /** The head of a sorted sequence is no larger than anything in the tail, or than a larger
      value put among it. */
  lemma Below(s: seq<real>, x: real, rest: seq<real>)
    requires Sorted(s) && s != [] && s[0] < x
    requires multiset(rest) == multiset(s[1..]) + multiset{x}
    ensures forall k :: 0 <= k < |rest| ==> s[0] <= rest[k]
  {
    forall k | 0 <= k < |rest|
      ensures s[0] <= rest[k]
    {
      var y := rest[k];
      assert y in multiset(rest);
      if y != x {
        assert y in multiset(s[1..]);
        assert y in s[1..];
      }
    }
  }

  /** `sorted(s)`: the values of `s` in ascending order. */
  function Sort(s: seq<real>): (r: seq<real>)
    ensures Sorted(r) && multiset(r) == multiset(s) && |r| == |s|
  {
    if s == [] then []
    else
      assert s == s[..|s| - 1] + [s[|s| - 1]];
      Insert(Sort(s[..|s| - 1]), s[|s| - 1])
  }

  /** The smallest value: `min(s)`. */
  function Min(s: seq<real>): (m: real)
    requires s != []
    ensures m in s && forall k :: 0 <= k < |s| ==> m <= s[k]
  {
    if |s| == 1 then s[0]
    else
      var m := Min(s[1..]);
      assert forall k :: 1 <= k < |s| ==> s[k] == s[1..][k - 1];
      if s[0] <= m then s[0] else m
  }

  /** The largest value: `max(s)`. */
  function Max(s: seq<real>): (m: real)
    requires s != []
    ensures m in s && forall k :: 0 <= k < |s| ==> s[k] <= m
  {
    if |s| == 1 then s[0]
    else
      var m := Max(s[1..]);
      assert forall k :: 1 <= k < |s| ==> s[k] == s[1..][k - 1];
      if m <= s[0] then s[0] else m
  }

  /** The lower of the two middle entries (the middle one when there are an odd number). */
  function MiddleLow(t: seq<real>): real
    requires t != []
  {
    t[(|t| - 1) / 2]
  }

  /** The middle entry, or the average of the two middle entries when there are an even
      number of them. */
  function Middle(t: seq<real>): real
    requires t != []
  {
    if |t| % 2 == 1 then t[|t| / 2] else (t[|t| / 2 - 1] + t[|t| / 2]) / 2.0
  }

  /** `statistics.median_low(s)`: the lower of the two middle values of the sorted data
      (the middle one when there are an odd number of values). */
  function MedianLow(s: seq<real>): real
    requires s != []
  {
    MiddleLow(Sort(s))
  }

  /** `numpy.median(s)`: the middle value of the sorted data, or the average of the two
      middle values when there are an even number of them. */
  function Median(s: seq<real>): real
    requires s != []
  {
    Middle(Sort(s))
  }

  function Abs(x: real): real
  {
    if x < 0.0 then -x else x
  }

  /** The absolute deviations `|x - c|` of the values, in order. */
  function Deviations(s: seq<real>, c: real): (d: seq<real>)
    ensures |d| == |s|
  {
    if s == [] then []
    else Deviations(s[..|s| - 1], c) + [Abs(s[|s| - 1] - c)]
  }

  /** `astropy.stats.median_absolute_deviation(s)`: the median of the absolute deviations
      from the median. */
  function Mad(s: seq<real>): (m: real)
    requires s != []
  {
    Median(Deviations(s, Median(s)))
  }

  // ---------------------------------------------------------------------------------------
  // Properties

  /** Every entry of the sorted data is one of the values. */
  lemma SortedEntry(s: seq<real>, k: nat)
    requires k < |s|
    ensures Sort(s)[k] in s
  {
    var t := Sort(s);
    assert t[k] in multiset(t);
  }

  /** Every value lies between the smallest and the largest. */
  lemma Between(s: seq<real>, v: real)
    requires v in s
    ensures Min(s) <= v <= Max(s)
  {
    var k :| 0 <= k < |s| && s[k] == v;
  }

  /** The low median is one of the values, no smaller than the smallest and no larger than
      the largest. */
  lemma MedianLowBounds(s: seq<real>)
    requires s != []
    ensures MedianLow(s) in s && Min(s) <= MedianLow(s) <= Max(s)
  {
    SortedEntry(s, (|s| - 1) / 2);
    Between(s, MedianLow(s));
  }

  /** The median lies between the smallest and the largest value. */
  lemma MedianBounds(s: seq<real>)
    requires s != []
    ensures Min(s) <= Median(s) <= Max(s)
  {
    var t, n := Sort(s), |s|;
    SortedEntry(s, n / 2);
    Between(s, t[n / 2]);
    SortedEntry(s, (n - 1) / 2);
    Between(s, t[(n - 1) / 2]);
    MiddleBetween(t, Min(s), Max(s));
  }

  /** When both middle entries lie in [lo, hi], so does the middle. */
  lemma MiddleBetween(t: seq<real>, lo: real, hi: real)
    requires t != []
    requires lo <= t[(|t| - 1) / 2] <= hi && lo <= t[|t| / 2] <= hi
    ensures lo <= Middle(t) <= hi
  {
    if |t| % 2 == 0 {
      assert |t| / 2 - 1 == (|t| - 1) / 2;
    }
  }

  /** Entry k of the deviations is the absolute deviation of value k. */
  lemma {:induction false} DeviationsAt(s: seq<real>, c: real, k: nat)
    requires k < |s|
    ensures Deviations(s, c)[k] == Abs(s[k] - c)
  {
    if k < |s| - 1 {
      DeviationsAt(s[..|s| - 1], c, k);
    }
  }

  /** The median absolute deviation is never negative. */
  lemma MadNonNegative(s: seq<real>)
    requires s != []
    ensures Mad(s) >= 0.0
  {
    var d := Deviations(s, Median(s));
    MedianBounds(d);
    var k :| 0 <= k < |d| && d[k] == Min(d);
    DeviationsAt(s, Median(s), k);
  }

  /** In a sorted sequence, a value above the entry at k occurs only after k. */
  lemma CountAfter(t: seq<real>, c: real, k: nat)
    requires Sorted(t) && k < |t| && t[k] < c
    ensures multiset(t)[c] <= |t| - 1 - k
  {
    assert t == t[..k + 1] + t[k + 1..];
    assert c !in t[..k + 1];
    assert multiset(t[k + 1..])[c] <= |t[k + 1..]|;
  }

  /** In a sorted sequence, a value below the entry at k occurs only before k. */
  lemma CountBefore(t: seq<real>, c: real, k: nat)
    requires Sorted(t) && k < |t| && t[k] > c
    ensures multiset(t)[c] <= k
  {
    assert t == t[..k] + t[k..];
    assert c !in t[k..];
    assert multiset(t[..k])[c] <= |t[..k]|;
  }

  /** A sorted sequence in which the value `c` occurs more than k times and more than
      |t| - 1 - k times holds `c` at index k. */
  lemma SortedAt(t: seq<real>, c: real, k: nat)
    requires Sorted(t) && k < |t|
    requires multiset(t)[c] > k && multiset(t)[c] > |t| - 1 - k
    ensures t[k] == c
  {
    if t[k] < c {
      CountAfter(t, c, k);
    } else if t[k] > c {
      CountBefore(t, c, k);
    }
  }

  /** A value held by more than half of the data is both the low median and the median. */
  lemma MajorityMedian(s: seq<real>, c: real)
    requires multiset(s)[c] * 2 > |s|
    ensures s != [] && MedianLow(s) == c && Median(s) == c
  {
    assert c in multiset(s);
    var t := Sort(s);
    MajorityAt(t, c, (|s| - 1) / 2);
    MajorityAt(t, c, |s| / 2);
    MiddleValues(t, c);
  }

  /** In sorted data a value held by more than half of it sits at both middle indices. */
  lemma MajorityAt(t: seq<real>, c: real, k: nat)
    requires Sorted(t) && multiset(t)[c] * 2 > |t|
    requires k == (|t| - 1) / 2 || k == |t| / 2
    ensures k < |t| && t[k] == c
  {
    SortedAt(t, c, k);
  }

  /** When both middle entries are c, so are the low middle and the middle. */
  lemma MiddleValues(t: seq<real>, c: real)
    requires t != [] && t[(|t| - 1) / 2] == c && t[|t| / 2] == c
    ensures MiddleLow(t) == c && Middle(t) == c
  {
    if |t| % 2 == 0 {
      assert |t| / 2 - 1 == (|t| - 1) / 2;
    }
  }

  /** A value occurs among the values as often as 0 occurs among their deviations from it. */
  lemma {:induction false} ZeroDeviations(s: seq<real>, c: real)
    ensures multiset(Deviations(s, c))[0.0] == multiset(s)[c]
  {
    if s != [] {
      var p := s[..|s| - 1];
      ZeroDeviations(p, c);
      assert s == p + [s[|s| - 1]];
    }
  }

  /** When more than half of the values are equal, the median absolute deviation is 0. */
  lemma MajorityMad(s: seq<real>, c: real)
    requires multiset(s)[c] * 2 > |s|
    ensures s != [] && Mad(s) == 0.0
  {
    MajorityMedian(s, c);
    var d := Deviations(s, c);
    ZeroDeviations(s, c);
    MajorityMedian(d, 0.0);
  }
}
