# go-matrixprofile `util`: anytime order, diagonal batches, moving statistics

A Dafny model of three helpers from the `util` package of go-matrixprofile, the
library that computes matrix profiles of time series. The helpers' behaviour is
fixed by the package's tests in `util/util_test.go`:

- **`BinarySplit(lb, ub)`** (module `AnytimeOrder`, `anytime_order.dfy`) lists
  the integers of `lb..ub` in "anytime" order, so that any prefix of the list is
  already spread across the range. First comes `lb`. Then `lb+1..ub` is
  bisected breadth-first, with a FIFO queue of ranges:
  - taking range `lo..hi` emits its floor midpoint `(lo + hi) / 2`;
  - it then queues `lo..mid-1` before `mid+1..hi`, skipping empty parts.

  `BisectionOrder` is this order as a recursive function. The method
  `BinarySplit` is the queue loop, proved equal to it. The lemmas prove:
  - the order is a permutation of the range;
  - it starts with `lb`, then `(lb+1+ub)/2`, and ends with `ub`;
  - it emits each level's midpoints before any of the next level's;
  - it reproduces every test vector, shifted to start at any integer.
- **`DiagBatchingScheme(l, p)`** (module `DiagBatching`, `diag_batching.dfy`)
  splits the diagonals `0, 1, 2, ...` of the distance matrix into `p`
  contiguous batches `Batch{Idx, Size}`, one per worker. The boundary formula
  is not part of this model. `IsDiagBatching` states the shape of every
  result, and the lemmas prove what follows from it: each diagonal
  `0..l-1` lies in exactly one batch, and when `l >= p` every batch holds at
  least one of them. The result the test fixes for `(33, 4)` is shown to have
  that shape.
- **`MovMeanStd(data, m)`** (module `RollingStats`, `rolling_stats.dfy`)
  reports each length-`m` window's mean and spread. It fails with
  `InvalidWindow` unless `0 < m <= len(data)`. Otherwise both outputs have
  `len(data) - m + 1` entries.
  - `MovMeanStd` is the window-by-window definition.
  - `MovMeanStdRolling` is the rolling computation, proved equal to it:
    - it accumulates the first window's sum and sum of squares;
    - each slide subtracts the sample that leaves and adds the one that
      enters;
    - it takes each window's variance as `E[x^2] - E[x]^2`, clamped at zero.

  Values are exact reals, and the spread is reported as the variance (see
  below).

Two points of the model are fixed by what the tests show:
- For `DiagBatchingScheme`, the result the test fixes for `(33, 4)` ends at
  diagonal 34, one past the last diagonal 32. So `IsDiagBatching` does not ask
  the batches to cover `0..l-1` exactly, only that the last batch reach at
  least `l` while starting below it.
- For `BinarySplit`, the test vectors are exactly the breadth-first queue
  order, with `ub` last. `BisectionOrderEnds` proves that `ub` always comes
  last in that order, with no step that appends it specially.

## Model

| member | source | states |
|---|---|---|
| AnytimeOrder.BisectionOrder | util/util_test.go:137-150 | The order of `lb..ub` has `ub - lb + 1` entries (none when `lb > ub`). Every integer of the range occurs exactly once and nothing else occurs. The first entry is `lb`. |
| AnytimeOrder.BinarySplit | util/util_test.go:152-163 | The FIFO queue loop returns exactly `BisectionOrder(lb, ub)`: `[]` when `ub < lb`, `[lb]` when they are equal. Its invariant is that the output so far followed by `Drain(queue)`, the loop written as recursion, is the whole order. |
| AnytimeOrder.Mid | util/util_test.go:146-149 | The midpoint emitted for `lo..hi` is the floor of `(lo + hi) / 2`: the `m` with `2m <= lo + hi < 2m + 2`. |
| AnytimeOrder.LoopStep | util/util_test.go:146-149 | One loop iteration keeps `output ++ Drain(queue)` unchanged. Every queued range stays non-empty, and the queued total shrinks. |
| AnytimeOrder.Halves | util/util_test.go:146-149 | The floor midpoint of a non-empty range lies inside it. Only non-empty parts are queued. |
| AnytimeOrder.HalvesSize | util/util_test.go:146-149 | Bisecting a range leaves exactly one integer fewer queued. |
| AnytimeOrder.HalvesContent | util/util_test.go:146-149 | The midpoint plus the two parts hold exactly the integers of the range. |
| AnytimeOrder.IntervalCount | util/util_test.go:145-149 | A range `lo..hi` lists `hi - lo + 1` integers, each of the range once. |
| AnytimeOrder.DrainLength | util/util_test.go:154 | The loop emits as many integers as its queue holds. |
| AnytimeOrder.DrainContent | util/util_test.go:145-149 | The loop emits exactly the multiset of integers its queue holds. |
| AnytimeOrder.DrainLevel | util/util_test.go:146-149 | Draining `q ++ p` emits q's midpoints first, then drains `p` followed by q's halves. |
| AnytimeOrder.DrainByLevel | util/util_test.go:146-149 | The order is level by level: a queue drains to its midpoints, then to what its next level drains to. |
| AnytimeOrder.KidsSize | util/util_test.go:146-149 | The next level holds every queued integer except the emitted midpoints. |
| AnytimeOrder.KidsHeight | util/util_test.go:146-149 | Bisection lowers the height bound by one: if every range of a level is at most `h + 1` bisections tall, every range of the next level is at most `h` tall. |
| AnytimeOrder.DrainEndsAtLastHi | util/util_test.go:146-149 | Suppose a level's last range is non-empty and at least as tall as every other range. Then the level drains last to that range's upper end. |
| AnytimeOrder.BisectionOrderEnds | util/util_test.go:145-149 | For `lb < ub` the order starts `lb, (lb+1+ub)/2` and ends with `ub`. |
| AnytimeOrder.SmallExamples | util/util_test.go:143-145 | `4..0` gives `[]`, `1..1` gives `[1]`, `0..1` gives `[0, 1]`. |
| AnytimeOrder.ExampleZeroToFour | util/util_test.go:146 | `c..c+4` gives `[c, c+2, c+1, c+3, c+4]`; the test is `c = 0`. |
| AnytimeOrder.ExampleZeroToNine | util/util_test.go:147 | `c..c+9` gives the test's 0..9 vector shifted by `c`. |
| AnytimeOrder.ExampleZeroToSixteen | util/util_test.go:148 | `c..c+16` gives the test's 0..16 vector shifted by `c`. |
| AnytimeOrder.ExampleSevenToFifteen | util/util_test.go:149 | `c..c+8` gives the test's 7..15 vector with 7 replaced by `c`. |
| DiagBatching.IsDiagBatching | util/util_test.go:172-190 | The shape of a result: exactly `p >= 1` batches; the first at `Idx` 0 with `Size >= 1`; each starting where the previous ends; sizes never decreasing; the last ending at or past `l`; and, when `l >= p`, the last starting below `l`. |
| DiagBatching.StartsAreRunningTotals | util/util_test.go:182-187 | In a batching, each batch's `Idx` is the total `Size` of the batches before it. Its end is the total up to and including it. |
| DiagBatching.CoversTotal | util/util_test.go:172 | The batches' sizes add up to at least `l`. |
| DiagBatching.SizesPositive | util/util_test.go:172 | Every batch holds at least one diagonal, and never fewer than the first batch. |
| DiagBatching.Disjoint | util/util_test.go:172 | An earlier batch ends no later than a later batch starts. |
| DiagBatching.CoveredBy | util/util_test.go:172 | Every diagonal below the n-th batch's end lies in one of the first n batches. |
| DiagBatching.EachDiagonalInOneBatch | util/util_test.go:167-192 | Every diagonal `0 <= d < l` lies in one batch and in no other. |
| DiagBatching.EveryBatchHasWork | util/util_test.go:172 | When `l >= p`, every batch starts at a diagonal in `0..l-1`, so each worker gets at least one diagonal. |
| DiagBatching.ExampleThirtyThreeByFour | util/util_test.go:172 | `{0,3},{3,6},{9,7},{16,18}` is a batching of 33 diagonals over 4 workers, and it ends at 34. |
| RollingStats.MovMeanStd | util/util_test.go:53-95 | Error (`InvalidWindow`) if and only if `m <= 0` or `m > len(data)`. Otherwise the means and variances have `len(data) - m + 1` entries each. |
| RollingStats.MovMeanStdRolling | util/util_test.go:64 | The rolling-sum computation returns exactly `MovMeanStd(data, m)`, error included. |
| RollingStats.WindowSums | util/util_test.go:64 | The accumulation loop returns the window's sum and sum of squares. |
| RollingStats.SlideWindow | util/util_test.go:64 | The sliding loop returns, for every window, the window's mean and variance. |
| RollingStats.WindowStats | util/util_test.go:64 | The mean and the clamped `E[x^2] - E[x]^2` from a window's sums are its mean and variance. |
| RollingStats.SlideSums | util/util_test.go:64 | Subtracting the leaving sample and adding the entering one turns one window's sums into the next window's. |
| RollingStats.SumOfAppend | util/util_test.go:64 | Sums, sums of squares and squared deviations add over concatenation. |
| RollingStats.SqDevExpand | util/util_test.go:64 | The squared deviations from `c` sum to `Σx² - 2cΣx + n c²`. |
| RollingStats.MeanSqDevExpand | util/util_test.go:64 | The mean squared deviation from `c` is `E[x²] - 2cE[x] + c²`. |
| RollingStats.VarianceByMoments | util/util_test.go:64 | A window's variance equals `E[x²] - E[x]²`. |
| RollingStats.SqDevNonNegative | util/util_test.go:90-94 | Sums of squared deviations are never negative. |
| RollingStats.VarianceNonNegative | util/util_test.go:90-94 | A window's variance is never negative, so the clamp at zero changes nothing on exact values. |
| RollingStats.ConstantSums | util/util_test.go:56-58 | On a constant series the sum is `n·c` and the squared deviations from `c` sum to 0. |
| RollingStats.ConstantSeries | util/util_test.go:56-58 | On a constant series every window has that constant as its mean and a variance of exactly 0. |
| RollingStats.ExampleShapes | util/util_test.go:53-57 | Empty data with `m = 4` or `m = 0` fails, and `1, 1, 1, 1` with `m = 0` fails. A window as long as the data gives one entry; windows of 2 over 4 samples give three. |
| RollingStats.PairStats | util/util_test.go:59-60 | A two-sample window `[a, b]` has mean `(a+b)/2` and variance `(a-b)²/4`. |
| RollingStats.ExampleAlternating | util/util_test.go:59 | `1, -1, -1, 1` with windows of 2 gives means `0, -1, 0` and variances `1, 0, 1` (std `1, 0, 1`). |
| RollingStats.ExampleDoubling | util/util_test.go:60 | `1, 2, 4, 8` with windows of 2 gives means `1.5, 3, 6` and variances `0.25, 1, 4` (std `0.5, 1, 2`). |

## Left out

- RollingStats.MovMeanStd: reports each window's population variance instead of its standard deviation. Dafny's reals have no square root. The test's std values are the square roots of the modelled variances.
- RollingStats.MovMeanStdRolling: works on exact reals, not 64-bit floats. Rounding error is not modelled. So the clamp of a slightly negative `E[x^2] - E[x]^2` at zero never fires, and `VarianceNonNegative` proves it cannot. The test's `1e-7` tolerance is not modelled either.
- `ZNormalize` (util/util_test.go:8-41) and `MuInvN` (util/util_test.go:100-134) are not modelled. Both are floating-point computations with square roots, checked against tolerances.
- `DiagBatchingScheme` itself, meaning its rounded real-valued boundary formula, is not modelled. The test fixes one result only. The model states the shape of a result (`DiagBatching.IsDiagBatching`) and checks that result against it.
- DiagBatching.IsDiagBatching: requires sizes to never decrease for every `l` and `p`. The one tested result has increasing sizes; the model does not say what happens to the sizes when `l` is close to or below `p`, where rounding may break this.
- AnytimeOrder.Mid: uses the floor midpoint. Go's integer `/` truncates toward zero, so where `lo + hi` is negative and odd, a Go `(lo + hi) / 2` is one more than the modelled midpoint and the order of such a range is not modelled. All bounds in the test are non-negative.
- Go's fixed-width `int` is modelled as an unbounded integer. Overflow of `lo + hi` or of batch ends is not modelled.
- Worker goroutines that consume the batches, the matrix-profile computation that uses these helpers, and the table-driven test harness are not part of this model.
