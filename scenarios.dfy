/** The scenarios of internal/analytics/rolling_average_test.go and
    internal/analytics/anomaly_detector_test.go, replayed against the model:
    each method drives a fresh object and its postcondition states what the
    calls return. */
module Scenarios {
  import opened Window
  import opened Stats
  import opened RollingAverages
  import opened AnomalyDetection

  /** A new rolling average reports average 0 and count 0. */
  method RollingAverageEmpty() returns (average: real, count: int)
    ensures average == 0.0 && count == 0
  {
    var ra := new RollingAverage(3);
    average := ra.GetAverage();
    count := ra.GetCount();
  }

  /** The windows and means the sliding-window scenario passes through. */
  lemma SlidingWindowSteps()
    ensures Slide([], 1.0, 3) == [1.0] && Mean([1.0]) == 1.0
    ensures Slide([1.0], 2.0, 3) == [1.0, 2.0] && Mean([1.0, 2.0]) == 1.5
    ensures Slide([1.0, 2.0], 3.0, 3) == [1.0, 2.0, 3.0] && Mean([1.0, 2.0, 3.0]) == 2.0
    ensures Slide([1.0, 2.0, 3.0], 4.0, 3) == [2.0, 3.0, 4.0] && Mean([2.0, 3.0, 4.0]) == 3.0
  {
    assert Sum([1.0]) == 1.0 && Sum([2.0]) == 2.0;
    SumSnoc([1.0], 2.0);
    assert [1.0] + [2.0] == [1.0, 2.0];
    SumSnoc([1.0, 2.0], 3.0);
    assert [1.0, 2.0] + [3.0] == [1.0, 2.0, 3.0];
    SumSnoc([2.0], 3.0);
    assert [2.0] + [3.0] == [2.0, 3.0];
    SumSnoc([2.0, 3.0], 4.0);
    assert [2.0, 3.0] + [4.0] == [2.0, 3.0, 4.0];
    assert ([1.0, 2.0, 3.0] + [4.0])[1..] == [2.0, 3.0, 4.0];
  }

  /** Window 3, samples 1, 2, 3, 4: the averages are 1, 1.5, 2 and then 3,
      once the 1 has been evicted; the count stays at 3. */
  method RollingAverageSlidingWindow() returns (averages: seq<real>, count: int)
    ensures averages == [1.0, 1.5, 2.0, 3.0]
    ensures count == 3
  {
    SlidingWindowSteps();
    var ra := new RollingAverage(3);
    ra.Add(1.0);
    var a1 := ra.GetAverage();
    ra.Add(2.0);
    var a2 := ra.GetAverage();
    ra.Add(3.0);
    var a3 := ra.GetAverage();
    ra.Add(4.0);
    var a4 := ra.GetAverage();
    averages := [a1, a2, a3, a4];
    count := ra.GetCount();
  }

  /** After two samples and a `Reset`, count and average are back to 0. */
  method RollingAverageReset() returns (average: real, count: int)
    ensures average == 0.0 && count == 0
  {
    var ra := new RollingAverage(3);
    ra.Add(10.0);
    ra.Add(20.0);
    ra.Reset();
    count := ra.GetCount();
    average := ra.GetAverage();
  }

  /** Window 5: none of the first four samples is flagged, because the
      window is not yet full. */
  method DetectorWarmup() returns (decisions: seq<bool>)
    ensures |decisions| == 4
    ensures forall k | 0 <= k < 4 :: !decisions[k]
  {
    var ad := new AnomalyDetector(5, 2.0);
    decisions := [];
    var i := 0;
    while i < 4
      invariant 0 <= i <= 4
      invariant ad.Valid() && |ad.values| == i
      invariant |decisions| == i && forall k | 0 <= k < i :: !decisions[k]
    {
      var isAnomaly := ad.Add(100.0);
      decisions := decisions + [isAnomaly];
      i := i + 1;
    }
  }

  /** Window 50, threshold 2: fifty samples of 100 are not flagged, and
      neither is the following 2000. The window it is judged against is
      fifty identical samples, whose standard deviation is 0; the test
      of this scenario expects the 2000 to be flagged. */
  method DetectorSpike() returns (stable: seq<bool>, spike: bool)
    ensures |stable| == 50 && forall k | 0 <= k < 50 :: !stable[k]
    ensures !spike
  {
    var ad := new AnomalyDetector(50, 2.0);
    stable := [];
    var i := 0;
    while i < 50
      invariant 0 <= i <= 50
      invariant ad.Valid() && ad.values == Repeat(100.0, i)
      invariant |stable| == i && forall k | 0 <= k < i :: !stable[k]
    {
      ConstantWindowNeverAnomalous(ad.values, 100.0, 100.0, 50, 2.0);
      var isAnomaly := ad.Add(100.0);
      assert ad.values == Repeat(100.0, i + 1);
      stable := stable + [isAnomaly];
      i := i + 1;
    }
    ConstantWindowNeverAnomalous(ad.values, 100.0, 2000.0, 50, 2.0);
    spike := ad.Add(2000.0);
  }

  /** Window 10: after ten samples and a `Reset`, the statistics are all 0. */
  method DetectorReset() returns (mean: real, variance: real, count: int)
    ensures mean == 0.0 && variance == 0.0 && count == 0
  {
    var ad := new AnomalyDetector(10, 2.0);
    var i := 0;
    while i < 10
      invariant 0 <= i <= 10
      invariant ad.Valid()
    {
      var _ := ad.Add(100.0);
      i := i + 1;
    }
    ad.Reset();
    mean, variance, count := ad.GetStats();
  }
}
