/** The rolling average of internal/analytics/rolling_average.go: a window
    of at most `windowSize` samples, oldest first, whose mean is reported on
    demand. Each method is one atomic step (the mutex is not modelled). */
module RollingAverages {
  import opened Window
  import opened Stats

  class RollingAverage {
    /** The capacity given at construction; no method writes it. */
    const windowSize: nat
    /** The samples in the window, oldest first. */
    var values: seq<real>
    /** Every sample passed to `Add` since construction or the last `Reset`. */
    ghost var added: seq<real>

    /** The window is what adding the samples of `added` one by one leaves
        (by `ReplayIsLast`, the newest `windowSize` of them). */
    ghost predicate Valid()
      reads this
    {
      |values| <= windowSize && values == Replay(added, windowSize)
    }

    /** `NewRollingAverage`: an empty window of the given capacity (a negative
        capacity makes the slice allocation panic, so it is excluded). */
    constructor (windowSize: nat)
      ensures Valid()
      ensures this.windowSize == windowSize
      ensures values == [] && added == []
    {
      this.windowSize := windowSize;
      values := [];
      added := [];
    }

    /** Append `value`, then drop the oldest sample if the window has grown
        past its capacity. */
    method Add(value: real)
      requires Valid()
      modifies this
      ensures Valid()
      ensures added == old(added) + [value]
      ensures values == Slide(old(values), value, windowSize)
      ensures |values| <= windowSize
      ensures |old(values)| < windowSize ==> values == old(values) + [value]
      ensures 0 < |old(values)| == windowSize ==> values == old(values)[1..] + [value]
    {
      SlideIsFifo(values, value, windowSize);
      assert (added + [value])[..|added|] == added;
      values := values + [value];
      if |values| > windowSize {
        values := values[1..];
      }
      added := added + [value];
    }

    /** The arithmetic mean of the window, accumulated left to right; 0 when
        the window is empty. */
    method GetAverage() returns (average: real)
      ensures average == Mean(values)
      ensures values == [] ==> average == 0.0
    {
      if |values| == 0 {
        return 0.0;
      }
      var sum := 0.0;
      var i := 0;
      while i < |values|
        invariant 0 <= i <= |values|
        invariant sum == Sum(values[..i])
      {
        assert values[..i + 1][..i] == values[..i];
        sum := sum + values[i];
        i := i + 1;
      }
      assert values[..i] == values;
      average := sum / |values| as real;
    }

    /** The number of samples in the window: every sample added since
        construction or the last `Reset`, up to the capacity. */
    method GetCount() returns (count: int)
      requires Valid()
      ensures count == |values|
      ensures count == Min(|added|, windowSize)
      ensures 0 <= count <= windowSize
    {
      ReplayIsLast(added, windowSize);
      LastIsNewestSuffix(added, windowSize);
      count := |values|;
    }

    /** Empty the window; the capacity is kept. */
    method Reset()
      requires Valid()
      modifies this
      ensures Valid()
      ensures values == [] && added == []
    {
      values := [];
      added := [];
    }
  }
}
