/** The z-score anomaly detector of internal/analytics/anomaly_detector.go.
    `Add` judges a sample against the window as it was BEFORE the sample
    arrives, and only once that window is full; then it slides the window
    exactly as the rolling average does. Each method is one atomic step (the
    mutex is not modelled).

    The standard deviation is never computed: the reals have no square root
    that Dafny can build, so the model carries the variance (the square of
    the standard deviation) and states the z-score test in squared form;
    `ZScoreTestInSquaredForm` shows that this is the test the code makes
    for any standard deviation whose square is the variance. */
module AnomalyDetection {
  import opened Window
  import opened Stats

  function Abs(x: real): (r: real)
    ensures r >= 0.0 && (r == x || r == -x)
  {
    if x < 0.0 then -x else x
  }

  /** `stdDev > 0 && |value - mean| / stdDev > threshold` over window `w`,
      with both sides of the comparison squared. */
  predicate ExceedsThreshold(w: seq<real>, value: real, threshold: real)
  {
    Variance(w) > 0.0 &&
    (threshold < 0.0 || Square(value - Mean(w)) > Square(threshold) * Variance(w))
  }

  /** The answer `Add(value)` gives when the window holds `w`. */
  predicate Decision(w: seq<real>, value: real, windowSize: nat, threshold: real)
  {
    |w| >= windowSize && ExceedsThreshold(w, value, threshold)
  }

  lemma MulStrictMono(a: real, b: real, c: real)
    requires a < b && c > 0.0
    ensures a * c < b * c
  {
    MulPositive(b - a, c);
  }

  lemma SquareStrictMono(a: real, b: real)
    requires 0.0 <= a < b
    ensures Square(a) < Square(b)
  {
    var gap := b - a;
    var total := b + a;
    MulPositive(gap, total);
    assert Square(b) - Square(a) == gap * total;
  }

  /** For non-negative numbers, comparing squares is comparing the numbers. */
  lemma SquareMonotone(a: real, b: real)
    requires a >= 0.0 && b >= 0.0
    ensures a < b <==> Square(a) < Square(b)
  {
    if a < b {
      SquareStrictMono(a, b);
    } else if b < a {
      SquareStrictMono(b, a);
    }
  }

  lemma SquareOfAbs(x: real)
    ensures Square(Abs(x)) == Square(x)
  {
    if x < 0.0 {
      assert Square(-x) == Square(x);
    }
  }

  lemma SquareOfProduct(a: real, b: real)
    ensures Square(a * b) == Square(a) * Square(b)
  {
  }

  /** Dividing by a positive number keeps a strict comparison. */
  lemma DivideCompare(d: real, s: real, t: real)
    requires s > 0.0
    ensures d / s > t <==> d > t * s
  {
    var q := d / s;
    assert q * s == d;
    if q > t {
      MulStrictMono(t, q, s);
    } else if d > t * s {
      if q < t {
        MulStrictMono(q, t, s);
      }
    }
  }

  /** The squared-form test is the code's test: for any standard deviation
      `sd` (non-negative, squaring to the population variance of `w`),
      `ExceedsThreshold` holds exactly when `sd > 0` and the absolute
      z-score of `value` exceeds the threshold. */
  lemma ZScoreTestInSquaredForm(w: seq<real>, value: real, threshold: real, sd: real)
    requires sd >= 0.0 && Square(sd) == Variance(w)
    ensures ExceedsThreshold(w, value, threshold) <==>
            sd > 0.0 && Abs((value - Mean(w)) / sd) > threshold
  {
    SquareFacts(sd);
    if sd > 0.0 {
      var dev := value - Mean(w);
      var z := dev / sd;
      assert Abs(z) == Abs(dev) / sd;
      DivideCompare(Abs(dev), sd, threshold);
      if threshold >= 0.0 {
        var bound := threshold * sd;
        assert bound >= 0.0 by {
          if threshold > 0.0 { MulPositive(threshold, sd); }
        }
        SquareMonotone(bound, Abs(dev));
        SquareOfAbs(dev);
        SquareOfProduct(threshold, sd);
      }
    }
  }

  /** A window whose samples are all the same has no spread, so no sample
      is judged anomalous against it, however far it lies from the rest. */
  lemma {:induction false} ConstantWindowNeverAnomalous(w: seq<real>, c: real, value: real, windowSize: nat, threshold: real)
    requires AllEqual(w, c)
    ensures !Decision(w, value, windowSize, threshold)
  {
    if |w| > 0 {
      VarianceZeroIffConstant(w);
      assert w[0] == c;
    }
  }

  /** Over exact reals, a detector fed a stream of identical samples never
      flags one: the window it holds is made of those samples only, so no
      next sample, whatever its value, is flagged either. (In float64 the
      mean of such a window can carry a rounding error, and then this
      fails.) */
  lemma ConstantStreamNeverAnomalous(h: seq<real>, c: real, value: real, windowSize: nat, threshold: real)
    requires AllEqual(h, c)
    ensures !Decision(Replay(h, windowSize), value, windowSize, threshold)
  {
    ReplayIsLast(h, windowSize);
    LastIsNewestSuffix(h, windowSize);
    ConstantWindowNeverAnomalous(Replay(h, windowSize), c, value, windowSize, threshold);
  }

  class AnomalyDetector {
    /** The capacity given at construction; no method writes it. */
    const windowSize: nat
    /** The z-score threshold given at construction; no method writes it. */
    const threshold: real
    /** The samples in the window, oldest first. */
    var values: seq<real>
    /** Every sample passed to `Add` since construction or the last `Reset`. */
    ghost var added: seq<real>

    /** The window is what adding the samples of `added` one by one leaves
        (by `ReplayIsLast`, the newest `windowSize` of them). */
    ghost predicate Valid()
      reads this
    {
      |values| <= windowSize && values == Replay(added, windowSize)
    }

    /** `NewAnomalyDetector`: an empty window; capacity and threshold are
        stored as given, without defaults or checks (a negative capacity
        makes the slice allocation panic, so it is excluded). */
    constructor (windowSize: nat, threshold: real)
      ensures Valid()
      ensures this.windowSize == windowSize && this.threshold == threshold
      ensures values == [] && added == []
    {
      this.windowSize := windowSize;
      this.threshold := threshold;
      values := [];
      added := [];
    }

    /** Judge `value` against the window as it stands (only when it is
        already full), then append it and drop the oldest sample if the
        window has grown past its capacity. */
    method Add(value: real) returns (isAnomaly: bool)
      requires Valid()
      modifies this
      ensures Valid()
      ensures isAnomaly == Decision(old(values), value, windowSize, threshold)
      ensures |old(values)| < windowSize ==> !isAnomaly
      ensures added == old(added) + [value]
      ensures values == Slide(old(values), value, windowSize)
      ensures |values| <= windowSize
      ensures |old(values)| < windowSize ==> values == old(values) + [value]
      ensures 0 < |old(values)| == windowSize ==> values == old(values)[1..] + [value]
    {
      SlideIsFifo(values, value, windowSize);
      assert (added + [value])[..|added|] == added;
      isAnomaly := false;
      if |values| >= windowSize {
        var mean, variance := CalculateStats();
        // stdDev > 0, then |value - mean| / stdDev > threshold, both squared
        if variance > 0.0 {
          isAnomaly := threshold < 0.0 || Square(value - mean) > Square(threshold) * variance;
        }
      }
      values := values + [value];
      if |values| > windowSize {
        values := values[1..];
      }
      added := added + [value];
    }

    /** `calculateStats`: the mean and the population variance (divisor n)
        of the window, each accumulated left to right; (0, 0) when empty. */
    method CalculateStats() returns (mean: real, variance: real)
      ensures mean == Mean(values) && variance == Variance(values)
      ensures values == [] ==> mean == 0.0 && variance == 0.0
      ensures variance >= 0.0
      ensures values != [] ==> (variance == 0.0 <==> AllEqual(values, values[0]))
    {
      VarianceNonNegative(values);
      if values != [] {
        VarianceZeroIffConstant(values);
      }
      if |values| == 0 {
        return 0.0, 0.0;
      }
      var n := |values| as real;
      var sum := 0.0;
      var i := 0;
      while i < |values|
        invariant 0 <= i <= |values|
        invariant sum == Sum(values[..i])
      {
        assert values[..i + 1][..i] == values[..i];
        sum := sum + values[i];
        i := i + 1;
      }
      assert values[..i] == values;
      mean := sum / n;

      var squares := 0.0;
      i := 0;
      while i < |values|
        invariant 0 <= i <= |values|
        invariant squares == SumSqDev(values[..i], mean)
      {
        assert values[..i + 1][..i] == values[..i];
        squares := squares + Square(values[i] - mean);
        i := i + 1;
      }
      assert values[..i] == values;
      variance := squares / n;
    }

    /** `GetStats`: the statistics of the window and its length, read
        without changing anything. */
    method GetStats() returns (mean: real, variance: real, count: int)
      requires Valid()
      ensures mean == Mean(values) && variance == Variance(values)
      ensures count == |values| == Min(|added|, windowSize)
      ensures count == 0 <==> mean == 0.0 && variance == 0.0 && values == []
    {
      ReplayIsLast(added, windowSize);
      LastIsNewestSuffix(added, windowSize);
      mean, variance := CalculateStats();
      count := |values|;
    }

    /** Empty the window; capacity and threshold are kept. */
    method Reset()
      requires Valid()
      modifies this
      ensures Valid()
      ensures values == [] && added == []
    {
      values := [];
      added := [];
    }

    /** The capacity passed to the constructor. */
    method GetWindowSize() returns (size: int)
      ensures size == windowSize
    {
      size := windowSize;
    }

    /** The threshold passed to the constructor. */
    method GetThreshold() returns (t: real)
      ensures t == threshold
    {
      t := threshold;
    }
  }
}
