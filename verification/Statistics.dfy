/** The running statistics of the default monitor, over the real numbers. */
module Statistics {

  function Sum(s: seq<real>): real {
    if s == [] then 0.0 else Sum(s[..|s| - 1]) + s[|s| - 1]
  }

  /** The sum of squared deviations from m. */
  function Deviation(s: seq<real>, m: real): real {
    if s == [] then 0.0 else Deviation(s[..|s| - 1], m) + (s[|s| - 1] - m) * (s[|s| - 1] - m)
  }

  function Mean(s: seq<real>): real {
    if s == [] then 0.0 else Sum(s) / |s| as real
  }

  ghost predicate IsLeast(x: real, s: seq<real>) {
    x in s && forall i :: 0 <= i < |s| ==> x <= s[i]
  }

  ghost predicate IsGreatest(x: real, s: seq<real>) {
    x in s && forall i :: 0 <= i < |s| ==> s[i] <= x
  }

  /** The sum of e * (2x - c) over the samples. */
  function Spread(s: seq<real>, e: real, c: real): real {
    if s == [] then 0.0 else Spread(s[..|s| - 1], e, c) + e * (2.0 * s[|s| - 1] - c)
  }

  lemma SpreadStep(p: real, t: real, n: real, e: real, c: real, x: real)
    requires p == e * (2.0 * t - n * c)
    ensures p + e * (2.0 * x - c) == e * (2.0 * (t + x) - (n + 1.0) * c)
  {
  }

  lemma {:induction false} SpreadSum(s: seq<real>, n: real, e: real, c: real)
    requires n == |s| as real
    ensures Spread(s, e, c) == e * (2.0 * Sum(s) - n * c)
    decreases |s|
  {
    if s != [] {
      var r := s[..|s| - 1];
      SpreadSum(r, n - 1.0, e, c);
      SpreadStep(Spread(r, e, c), Sum(r), n - 1.0, e, c, s[|s| - 1]);
    }
  }

  lemma SquareGap(x: real, m: real, k: real)
    ensures (x - k) * (x - k) == (x - m) * (x - m) + (m - k) * (2.0 * x - (m + k))
  {
  }

  /** Deviations from two different points. */
  lemma {:induction false} DeviationShift(s: seq<real>, m: real, k: real)
    ensures Deviation(s, k) == Deviation(s, m) + Spread(s, m - k, m + k)
    decreases |s|
  {
    if s != [] {
      DeviationShift(s[..|s| - 1], m, k);
      SquareGap(s[|s| - 1], m, k);
    }
  }

  lemma Divide(t: real, n: real)
    requires n != 0.0
    ensures n * (t / n) == t
  {
  }

  lemma MeanTimesCount(s: seq<real>)
    ensures |s| as real * Mean(s) == Sum(s)
  {
    if s != [] {
      Divide(Sum(s), |s| as real);
    }
  }

  /** n is the count, t the sum and m the mean before x arrives; k is the mean after. */
  lemma SpreadAlgebra(n: real, t: real, m: real, k: real, x: real)
    requires n * m == t && (n + 1.0) * k == t + x
    ensures 2.0 * t - n * (m + k) == k - x
  {
  }

  lemma SpreadAroundMeans(s: seq<real>, x: real, m: real, k: real)
    requires m == Mean(s) && k == Mean(s + [x])
    ensures 2.0 * Sum(s) - |s| as real * (m + k) == k - x
  {
    var t := s + [x];
    assert t[..|t| - 1] == s;
    assert |t| as real == |s| as real + 1.0;
    MeanTimesCount(s);
    MeanTimesCount(t);
    SpreadAlgebra(|s| as real, Sum(s), m, k, x);
  }

  lemma WelfordStep(d: real, dk: real, d': real, p: real, w: real, m: real, k: real, x: real)
    requires dk == d + p && p == (m - k) * w && w == k - x && d' == dk + (x - k) * (x - k)
    ensures d' == d + (x - m) * (x - k)
  {
  }

  lemma SpreadValue(s: seq<real>, n: real, e: real, c: real, w: real)
    requires n == |s| as real && w == 2.0 * Sum(s) - n * c
    ensures Spread(s, e, c) == e * w
  {
    SpreadSum(s, n, e, c);
  }

  lemma WelfordAround(s: seq<real>, x: real, p: real, w: real, m: real, k: real)
    requires p == Spread(s, m - k, m + k) && p == (m - k) * w && w == k - x
    ensures Deviation(s + [x], k) == Deviation(s, m) + (x - m) * (x - k)
  {
    assert (s + [x])[..|s + [x]| - 1] == s;
    DeviationShift(s, m, k);
    WelfordStep(Deviation(s, m), Deviation(s, k), Deviation(s + [x], k), p, w, m, k, x);
  }

  lemma SpreadAtMeans(s: seq<real>, x: real, m: real, k: real, e: real, w: real)
    requires m == Mean(s) && k == Mean(s + [x]) && w == k - x
    ensures Spread(s, e, m + k) == e * w
  {
    SpreadAroundMeans(s, x, m, k);
    SpreadValue(s, |s| as real, e, m + k, w);
  }

  /** The update of var keeps it equal to the sum of squared deviations from the new mean. */
  lemma Welford(s: seq<real>, x: real, m: real, k: real)
    requires m == Mean(s) && k == Mean(s + [x])
    ensures Deviation(s + [x], k) == Deviation(s, m) + (x - m) * (x - k)
  {
    SpreadAtMeans(s, x, m, k, m - k, k - x);
    WelfordAround(s, x, Spread(s, m - k, m + k), k - x, m, k);
  }

  /** The new sum, avg and var of UPDATE_STATISTICS_WITH, for the num-th sample. */
  method Moments(num: nat, sum: real, avg: real, variance: real, value: real, ghost samples: seq<real>)
    returns (sum': real, avg': real, variance': real)
    requires num == |samples| + 1 && sum == Sum(samples)
    requires avg == Mean(samples) && variance == Deviation(samples, Mean(samples))
    ensures sum' == Sum(samples + [value]) && avg' == Mean(samples + [value])
    ensures variance' == Deviation(samples + [value], Mean(samples + [value]))
  {
    sum' := sum + value;
    AppendMean(samples, value);
    avg' := sum' / num as real;
    variance' := variance + (value - avg) * (value - avg');
    Welford(samples, value, avg, avg');
  }

  lemma AppendMean(s: seq<real>, x: real)
    ensures Sum(s + [x]) == Sum(s) + x
    ensures Mean(s + [x]) == (Sum(s) + x) / (|s| + 1) as real
  {
    assert (s + [x])[..|s + [x]| - 1] == s;
  }

  class Stats {
    var num: nat
    var min: real
    var max: real
    var sum: real
    var avg: real
    var variance: real
    ghost var samples: seq<real>

    /** num, sum, avg, var and min say of the samples what their names say; max is the
        greatest of the samples and 0. */
    ghost predicate Valid()
      reads this
    {
      && num == |samples| && sum == Sum(samples)
      && avg == Mean(samples) && variance == Deviation(samples, Mean(samples))
      && (if samples == [] then min == 0.0 else IsLeast(min, samples))
      && IsGreatest(max, [0.0] + samples)
    }

    constructor ()
      ensures Valid() && samples == []
    {
      num, min, max, sum, avg, variance := 0, 0.0, 0.0, 0.0, 0.0, 0.0;
      samples := [];
    }

    /** UPDATE_STATISTICS_WITH */
    method Update(value: real)
      requires Valid()
      modifies this
      ensures Valid() && samples == old(samples) + [value]
    {
      ghost var s := samples + [value];
      LeastStep(samples, min, value);
      GreatestStep([0.0] + samples, max, value);
      assert ([0.0] + samples) + [value] == [0.0] + s;
      num := num + 1;
      min := if min > value || num == 1 then value else min;
      max := if max < value then value else max;
      sum, avg, variance := Moments(num, sum, avg, variance, value, samples);
      samples := s;
    }

    /** The reset in statistics_to_json */
    method Reset()
      requires Valid()
      modifies this
      ensures Valid() && samples == []
    {
      num, min, max, avg, variance, sum := 0, 0.0, 0.0, 0.0, 0.0, 0.0;
      samples := [];
    }
  }

  lemma LeastStep(s: seq<real>, x: real, value: real)
    requires s != [] ==> IsLeast(x, s)
    ensures IsLeast(if x > value || s == [] then value else x, s + [value])
  {
  }

  lemma GreatestStep(s: seq<real>, x: real, value: real)
    requires IsGreatest(x, s)
    ensures IsGreatest(if x < value then value else x, s + [value])
  {
  }

  /** max is the greatest sample exactly when some sample is not negative. */
  lemma MaxIsGreatestIff(samples: seq<real>, max: real)
    requires samples != [] && IsGreatest(max, [0.0] + samples)
    ensures IsGreatest(max, samples) <==> exists i :: 0 <= i < |samples| && samples[i] >= 0.0
  {
    var s := [0.0] + samples;
    assert forall i :: 0 <= i < |samples| ==> samples[i] == s[i + 1];
    assert s[0] == 0.0;
    if i :| 0 <= i < |samples| && samples[i] >= 0.0 {
      var k :| 0 <= k < |s| && s[k] == max;
      if k == 0 {
        assert samples[i] == max;
      } else {
        assert samples[k - 1] == max;
      }
    } else {
      assert max >= s[0];
    }
  }

  /** After a single sample of -1 the maximum is 0. */
  lemma MaxOfNegative()
    ensures IsGreatest(0.0, [0.0] + [-1.0]) && !IsGreatest(0.0, [-1.0])
  {
    assert ([0.0] + [-1.0])[0] == 0.0;
  }
}
