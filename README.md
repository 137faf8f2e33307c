# Sliding-window analytics of Highload-final-project, in Dafny

The service keeps two small analytics objects in `internal/analytics`:

- `RollingAverage` holds at most `windowSize` samples, oldest first. `Add`
  appends a sample and, when the window has grown past its capacity, drops
  the oldest one. `GetAverage` is the arithmetic mean of the window (0 when
  it is empty), `GetCount` its length, and `Reset` empties it.
- `AnomalyDetector` keeps the same bounded window plus a z-score threshold.
  `Add(value)` first judges `value` against the window as it stands: only
  when that window is already full, and only when its population standard
  deviation is positive, is `value` flagged when `|value - mean| / stdDev`
  exceeds the threshold. Then the sample is appended and the window slides.
  `calculateStats` computes the population mean and standard deviation
  (the square root of the variance, divisor n), and `GetStats` reports them
  with the window length. `Reset` empties the window.

The test file `cmd/service/service_test.go` also carries `itoa`, a
hand-written int64 to decimal text encoder that fills a 20-byte buffer
from the right.

The model:

- `window.dfy` (`Window`): the sliding step `Slide`, the "newest n samples"
  view `Last`, and `Replay`, the window that adding a history sample by
  sample leaves. `ReplayIsLast` proves that the window is always the newest
  `windowSize` samples of everything added.
- `stats.dfy` (`Stats`): `Sum`, `Mean`, `SumSqDev` and `Variance` over
  `seq<real>`, with bounds, non-negativity and "variance is zero exactly
  when all samples are equal".
- `rolling_average.dfy` (`RollingAverages`): the `RollingAverage` class.
  Its field `values` is the window. A ghost field `added` records every
  sample added since construction or the last `Reset`, and `Valid()` ties
  the two together.
- `anomaly_detector.dfy` (`AnomalyDetection`): the `AnomalyDetector` class.
  The decision is given by `Decision`, stated in squared form, and
  `ZScoreTestInSquaredForm` proves it is the code's z-score test.
- `itoa.dfy` (`DecimalText`): `Itoa` over a 20-element `char` array. It is
  proved against `Decimal` and the parser `Parse`, and the two round trips
  are proved.
- `scenarios.dfy` (`Scenarios`): the unit tests of both analytics types,
  replayed as methods whose postconditions state what each call returns.

### What `AnomalyDetector.Add` does

`Add` in internal/analytics/anomaly_detector.go:26-45 has four properties
worth stating plainly, and the model keeps all four:

- it evaluates before inserting;
- it decides only once the window is full;
- it caches nothing;
- it stores both parameters as given. The detector applies no default; the
  2.0 in the comment on the threshold field is the value
  cmd/service/main.go:61 passes when ANOMALY_THRESHOLD is unset.

This bears on `TestAnomalyDetector_DetectsSpike`
(internal/analytics/anomaly_detector_test.go:16-30). It adds fifty samples
of 100 to a detector with window 50, then expects `Add(2000)` to be
flagged. Under the code, the window that 2000 is judged against holds fifty
identical samples, whose standard deviation is 0. So `Add` returns false.
`Scenarios.DetectorSpike` proves `!spike` for exactly that sequence.
The same holds in float64: fifty samples of 100 sum to exactly 5000, so the
mean is exactly 100 and the standard deviation exactly 0.
`AnomalyDetection.ConstantStreamNeverAnomalous` proves the general form over
exact reals: after any run of identical samples, no next sample is flagged.
In float64 this general form can fail (see "## Left out"). The
repository does not say whether the code or the test is wrong; the model
follows the code.

## Model

| member | source | states |
|---|---|---|
| Window.SlideIsFifo | internal/analytics/rolling_average.go:27-30 | one append-then-evict step keeps at most `cap` samples. Its result is the newest `cap` samples of old window + [v]: a plain append while there is room, and otherwise the oldest sample dropped |
| Window.SlideKeepsLast | internal/analytics/anomaly_detector.go:39-42 | sliding the newest `cap` samples of a history by v gives the newest `cap` samples of history + [v], so the window property survives every step |
| Window.ReplayIsLast | internal/analytics/rolling_average.go:23-31 | the window that any sequence of `Add` calls leaves is exactly the newest `windowSize` of the added samples |
| Stats.MeanBounds | internal/analytics/rolling_average.go:42-46 | the mean of a non-empty window lies between any lower and upper bound of its samples |
| Stats.MeanAllEqual | internal/analytics/anomaly_detector.go:54-58 | the mean of a window of identical samples is that sample |
| Stats.SumSqDevZero | internal/analytics/anomaly_detector.go:61-65 | the sum of squared deviations from m is 0 exactly when every sample equals m |
| Stats.VarianceNonNegative | internal/analytics/anomaly_detector.go:61-66 | the population variance is never negative, so its square root exists |
| Stats.VarianceZeroIffConstant | internal/analytics/anomaly_detector.go:61-66 | a non-empty window has variance 0, and so standard deviation 0, exactly when all its samples are equal |
| RollingAverages.RollingAverage.constructor | internal/analytics/rolling_average.go:15-20 | a new rolling average has the given capacity and an empty window |
| RollingAverages.RollingAverage.Add | internal/analytics/rolling_average.go:23-31 | records the sample and slides the window: append while there is room, otherwise drop the oldest. The window stays within capacity and stays the newest samples of the history |
| RollingAverages.RollingAverage.GetAverage | internal/analytics/rolling_average.go:34-47 | the loop's running sum is the sum of the samples seen so far; the result is the mean of the window, 0 when it is empty; the window is not changed |
| RollingAverages.RollingAverage.GetCount | internal/analytics/rolling_average.go:50-54 | the count is the window length, equal to min(samples added since construction or `Reset`, capacity) |
| RollingAverages.RollingAverage.Reset | internal/analytics/rolling_average.go:57-61 | the window and its history become empty; the capacity is a constant and is kept |
| AnomalyDetection.ZScoreTestInSquaredForm | internal/analytics/anomaly_detector.go:33-36 | for any non-negative standard deviation whose square is the window's variance, the squared-form test holds exactly when stdDev > 0 and abs((value - mean) / stdDev) > threshold |
| AnomalyDetection.ConstantWindowNeverAnomalous | internal/analytics/anomaly_detector.go:31-37 | against a window of identical samples, `Add` flags no value, whatever the window size and threshold |
| AnomalyDetection.ConstantStreamNeverAnomalous | internal/analytics/anomaly_detector.go:26-45 | over exact reals, after any run of identical samples the next sample is never flagged, however far it lies from them |
| AnomalyDetection.AnomalyDetector.constructor | internal/analytics/anomaly_detector.go:17-23 | a new detector stores capacity and threshold as given, with no defaults, and has an empty window |
| AnomalyDetection.AnomalyDetector.Add | internal/analytics/anomaly_detector.go:26-45 | the answer is the z-score decision over the window before insertion: false while that window is not full, and false when its standard deviation is 0. The window then slides exactly as the rolling average's does |
| AnomalyDetection.AnomalyDetector.CalculateStats | internal/analytics/anomaly_detector.go:48-69 | the two loops compute the population mean and variance of the window, (0, 0) when it is empty. The variance is non-negative and, for a non-empty window, 0 exactly when all samples are equal |
| AnomalyDetection.AnomalyDetector.GetStats | internal/analytics/anomaly_detector.go:72-77 | the statistics of the window and its length min(added, capacity), without changing state; the count is 0 exactly when mean, variance and window are all empty/zero |
| AnomalyDetection.AnomalyDetector.Reset | internal/analytics/anomaly_detector.go:80-84 | the window and its history become empty; capacity and threshold are constants and are kept |
| AnomalyDetection.AnomalyDetector.GetWindowSize | internal/analytics/anomaly_detector.go:86-90 | returns the capacity given to the constructor |
| AnomalyDetection.AnomalyDetector.GetThreshold | internal/analytics/anomaly_detector.go:92-96 | returns the threshold given to the constructor |
| DecimalText.Negate | cmd/service/service_test.go:122 | Go's int64 negation: the arithmetic negative, except that the smallest int64 maps to itself |
| DecimalText.DigitsCanonical | cmd/service/service_test.go:126-131 | the digits written for a positive number are non-empty, all '0'..'9', with no leading '0' |
| DecimalText.ParseDecimal | cmd/service/service_test.go:114-132 | every integer's decimal text is canonical and parses back to that integer |
| DecimalText.DecimalOfParse | cmd/service/service_test.go:114-132 | every canonical decimal text is the decimal text of the integer it parses to, so encoding is onto the canonical texts |
| DecimalText.Int64DigitsFit | cmd/service/service_test.go:124-129 | the magnitude of any int64 has at most 19 digits, so the 20-byte buffer index never drops below 0 |
| DecimalText.Itoa | cmd/service/service_test.go:114-132 | "0" for 0. Otherwise, for every int64 but the smallest, the text parses back to x, and a negative x gives "-" followed by the text of -x. The loop keeps digits(original) = digits(remaining) ++ buf[i..]. The smallest int64 gives "-" |
| Scenarios.RollingAverageEmpty | internal/analytics/rolling_average_test.go:5-13 | a new rolling average reports average 0 and count 0 |
| Scenarios.RollingAverageSlidingWindow | internal/analytics/rolling_average_test.go:15-41 | window 3, samples 1, 2, 3, 4: averages 1, 1.5, 2, 3 and final count 3 |
| Scenarios.RollingAverageReset | internal/analytics/rolling_average_test.go:43-56 | after two samples and `Reset`, count and average are 0 |
| Scenarios.DetectorWarmup | internal/analytics/anomaly_detector_test.go:5-14 | window 5: none of the first four samples is flagged |
| Scenarios.DetectorSpike | internal/analytics/anomaly_detector_test.go:16-30 | window 50, threshold 2: fifty samples of 100 are not flagged, and the following 2000 is not flagged either, contrary to the test's expectation |
| Scenarios.DetectorReset | internal/analytics/anomaly_detector_test.go:32-46 | window 10: after ten samples and `Reset`, `GetStats` gives (0, 0, 0) |

## Left out

- The `sync.RWMutex` in both types: each method is one atomic step, and concurrent callers are not modelled.
- IEEE-754 arithmetic (rounding, NaN, infinities, the accuracy of `math.Pow` and `math.Sqrt`): samples and statistics are `real`.
- AnomalyDetection.ConstantStreamNeverAnomalous: holds over exact reals only. In float64 the mean of identical samples can pick up a rounding error. For example, three samples of 0.1 sum to 0.30000000000000004, so the standard deviation is about 1.4e-17, and a following 2000 is flagged. Fifty samples of 100 sum exactly, so `Scenarios.DetectorSpike` is unaffected.
- AnomalyDetection.AnomalyDetector.CalculateStats: returns the population variance where `calculateStats` returns its square root, the standard deviation, because the reals have no square root the model can build. `ZScoreTestInSquaredForm` connects the two for any standard deviation.
- AnomalyDetection.AnomalyDetector.GetStats: returns the variance rather than the standard deviation, for the same reason. A zero variance is a zero standard deviation, so the reset scenario is unaffected.
- A negative window size: `make([]float64, 0, windowSize)` panics on it, and the capacity is a `nat`.
- Go slices sharing a backing array after `values[1:]`: the window is a value (`seq<real>`), and neither type exposes its slice.
- `itoa`'s byte buffer is a `char` array holding the digits '0'..'9'; the minus sign is a separate string, as in the source.
- The rest of the repository: `cmd/service/main.go` (HTTP handlers, JSON, environment, rate computation from wall-clock time), the Redis cache and its stub, the Prometheus metrics, the load-test script, and the HTTP tests in `cmd/service`. None of these is part of this model.
