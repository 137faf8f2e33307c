/** Exact arithmetic over a window of samples: the sum, the arithmetic mean
    and the population variance (divisor n, not n - 1). Both analytics types
    accumulate these left to right, which is how they are defined here. */
module Stats {

  function Sum(s: seq<real>): real
  {
    if s == [] then 0.0 else Sum(s[..|s| - 1]) + s[|s| - 1]
  }

  /** The mean of a window; 0 for the empty window, the convention both
      `GetAverage` and `calculateStats` use. */
  function Mean(s: seq<real>): real
  {
    if |s| == 0 then 0.0 else Sum(s) / |s| as real
  }

  /** `math.Pow(d, 2)`. Kept as a function of its own so that the solver
      treats the square as one term. */
  function Square(d: real): real
  {
    d * d
  }

  lemma MulPositive(a: real, b: real)
    requires a > 0.0 && b > 0.0
    ensures a * b > 0.0
  {
  }

  lemma SquareOfPositive(d: real)
    requires d > 0.0
    ensures Square(d) > 0.0
  {
    // d * d is split into two different positive factors
    var half := d / 2.0;
    MulPositive(half, d);
    assert Square(d) == 2.0 * (half * d);
  }

  /** A square is never negative, and is positive unless its root is 0. */
  lemma SquareFacts(d: real)
    ensures Square(d) >= 0.0
    ensures d != 0.0 ==> Square(d) > 0.0
  {
    if d > 0.0 {
      SquareOfPositive(d);
    } else if d < 0.0 {
      SquareOfPositive(-d);
      assert Square(d) == Square(-d);
    }
  }

  lemma NonNegativeSumZero(a: real, b: real)
    requires a >= 0.0 && b >= 0.0 && a + b == 0.0
    ensures a == 0.0 && b == 0.0
  {
  }

  /** The sum of squared deviations of the samples from `m`. */
  function SumSqDev(s: seq<real>, m: real): real
  {
    if s == [] then 0.0 else SumSqDev(s[..|s| - 1], m) + Square(s[|s| - 1] - m)
  }

  /** Population variance; 0 for the empty window. */
  function Variance(s: seq<real>): real
  {
    if |s| == 0 then 0.0 else SumSqDev(s, Mean(s)) / |s| as real
  }

  /** `n` copies of `c`. */
  function Repeat(c: real, n: nat): (r: seq<real>)
    ensures |r| == n && forall k | 0 <= k < n :: r[k] == c
  {
    seq(n, _ => c)
  }

  predicate AllEqual(s: seq<real>, c: real)
  {
    forall k | 0 <= k < |s| :: s[k] == c
  }

  lemma SumSnoc(s: seq<real>, x: real)
    ensures Sum(s + [x]) == Sum(s) + x
  {
    assert (s + [x])[..|s|] == s;
  }

  /** The sum of `n` samples that are all `c` is `n * c`. */
  lemma {:induction false} SumAllEqual(s: seq<real>, c: real)
    requires AllEqual(s, c)
    ensures Sum(s) == |s| as real * c
  {
    if s != [] {
      SumAllEqual(s[..|s| - 1], c);
    }
  }

  /** Every sample in [lo, hi] puts the sum in [n * lo, n * hi]. */
  lemma {:induction false} SumBounds(s: seq<real>, lo: real, hi: real)
    requires forall k | 0 <= k < |s| :: lo <= s[k] <= hi
    ensures |s| as real * lo <= Sum(s) <= |s| as real * hi
  {
    if s != [] {
      SumBounds(s[..|s| - 1], lo, hi);
    }
  }

  /** The mean of a non-empty window lies between its smallest and largest
      possible sample. */
  lemma MeanBounds(s: seq<real>, lo: real, hi: real)
    requires |s| > 0
    requires forall k | 0 <= k < |s| :: lo <= s[k] <= hi
    ensures lo <= Mean(s) <= hi
  {
    SumBounds(s, lo, hi);
    var n := |s| as real;
    assert Mean(s) * n == Sum(s);
  }

  /** A window of identical samples has that sample as its mean. */
  lemma MeanAllEqual(s: seq<real>, c: real)
    requires |s| > 0 && AllEqual(s, c)
    ensures Mean(s) == c
  {
    SumAllEqual(s, c);
  }

  lemma {:induction false} SumSqDevNonNegative(s: seq<real>, m: real)
    ensures SumSqDev(s, m) >= 0.0
  {
    if s != [] {
      SumSqDevNonNegative(s[..|s| - 1], m);
      SquareFacts(s[|s| - 1] - m);
    }
  }

  /** The squared deviations sum to zero exactly when every sample is `m`. */
  lemma {:induction false} SumSqDevZero(s: seq<real>, m: real)
    ensures SumSqDev(s, m) == 0.0 <==> AllEqual(s, m)
  {
    if s != [] {
      var p, x := s[..|s| - 1], s[|s| - 1];
      SumSqDevZero(p, m);
      SumSqDevNonNegative(p, m);
      var d := x - m;
      SquareFacts(d);
      if SumSqDev(s, m) == 0.0 {
        NonNegativeSumZero(SumSqDev(p, m), Square(d));
        assert AllEqual(p, m);
        forall k | 0 <= k < |s| ensures s[k] == m {
          if k < |p| { assert s[k] == p[k]; }
        }
      }
    }
  }

  lemma VarianceNonNegative(s: seq<real>)
    ensures Variance(s) >= 0.0
  {
    if |s| > 0 {
      SumSqDevNonNegative(s, Mean(s));
    }
  }

  /** The population variance of a non-empty window is zero if and only if
      all its samples are identical. */
  lemma VarianceZeroIffConstant(s: seq<real>)
    requires |s| > 0
    ensures Variance(s) == 0.0 <==> AllEqual(s, s[0])
  {
    var m := Mean(s);
    var n := |s| as real;
    SumSqDevZero(s, m);
    assert Variance(s) * n == SumSqDev(s, m);
    if AllEqual(s, s[0]) {
      MeanAllEqual(s, s[0]);
    }
  }
}
