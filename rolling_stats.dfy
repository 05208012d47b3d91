/** Moving-window statistics (util.MovMeanStd).

    MovMeanStd(data, m) slides a window of m samples across data with stride 1
    and reports, for every window data[i..i+m], its mean and its population
    standard deviation: two aligned outputs of len(data) - m + 1 entries each.
    A window length that is not positive or longer than data (which covers
    empty data) is an error and yields no output.

    Samples are exact reals here.  Dafny's reals have no square root, so each
    window's spread is reported as its population variance, the square of the
    standard deviation MovMeanStd returns.
 */
module RollingStats {

  datatype StatsError = InvalidWindow

  datatype Result<T> = Ok(value: T) | Err(error: StatsError)

  /** Aligned per-window statistics: means[i] and variances[i] describe window i. */
  datatype Stats = Stats(means: seq<real>, variances: seq<real>)

  /** What a running sum adds up for each sample x: x itself, x^2, or (x - c)^2. */
  datatype Summand = Sample | Square | SqDeviation(c: real)

  function Term(k: Summand, x: real): real {
    match k
    case Sample => x
    case Square => x * x
    case SqDeviation(c) => (x - c) * (x - c)
  }

  /** The sum of Term(k, x) over the samples x of s. */
  function SumOf(k: Summand, s: seq<real>): real {
    if s == [] then 0.0 else Term(k, s[0]) + SumOf(k, s[1..])
  }

  /** The sum of the samples. */
  function Sum(s: seq<real>): real {
    SumOf(Sample, s)
  }

  /** The sum of the squares of the samples. */
  function SumSq(s: seq<real>): real {
    SumOf(Square, s)
  }

  /** The sum of squared deviations of the samples from c. */
  function SqDev(s: seq<real>, c: real): real {
    SumOf(SqDeviation(c), s)
  }

  /** The mean of a window, E[x]. */
  function Mean(w: seq<real>): real
    requires |w| > 0
  {
    Sum(w) / (|w| as real)
  }

  /** The mean of the squares of a window, E[x^2]. */
  function MeanSquare(w: seq<real>): real
    requires |w| > 0
  {
    SumSq(w) / (|w| as real)
  }

  /** The mean squared deviation of a window from c. */
  function MeanSqDev(w: seq<real>, c: real): real
    requires |w| > 0
  {
    SqDev(w, c) / (|w| as real)
  }

  /** The population variance: the mean squared deviation from the mean. */
  function Variance(w: seq<real>): real
    requires |w| > 0
  {
    MeanSqDev(w, Mean(w))
  }

  /** Whether m is a window length MovMeanStd accepts for data. */
  predicate ValidWindow(data: seq<real>, m: int) {
    0 < m <= |data|
  }

  /** The statistics of every window, in window order. */
  function MovMeanStd(data: seq<real>, m: int): (r: Result<Stats>)
    ensures r.Err? <==> !ValidWindow(data, m)
    ensures r.Err? ==> r.error == InvalidWindow
    ensures r.Ok? ==> |r.value.means| == |r.value.variances| == |data| - m + 1
  {
    if !ValidWindow(data, m) then Err(InvalidWindow)
    else
      Ok(Stats(seq(|data| - m + 1, i requires 0 <= i < |data| - m + 1 => Mean(data[i..i + m])),
               seq(|data| - m + 1, i requires 0 <= i < |data| - m + 1 => Variance(data[i..i + m]))))
  }

  /** The rolling computation: the first window's sum and sum of squares are
      accumulated once, then each shift by one sample subtracts the sample that
      leaves and adds the one that enters.  Each window's variance is taken as
      E[x^2] - E[x]^2, clamped at zero. */
  method MovMeanStdRolling(data: seq<real>, m: int) returns (r: Result<Stats>)
    ensures r == MovMeanStd(data, m)
  {
    if m <= 0 || m > |data| {
      return Err(InvalidWindow);
    }
    var s, sq := WindowSums(data[..m]);
    assert data[..m] == data[0..0 + m];
    var means, variances := SlideWindow(data, m, s, sq);
    assert means == MovMeanStd(data, m).value.means;
    assert variances == MovMeanStd(data, m).value.variances;
    r := Ok(Stats(means, variances));
  }

  /** The sum and the sum of squares of the first window, accumulated sample by sample. */
  method WindowSums(w: seq<real>) returns (s: real, sq: real)
    ensures s == Sum(w) && sq == SumSq(w)
  {
    s, sq := 0.0, 0.0;
    var j := 0;
    while j < |w|
      invariant 0 <= j <= |w|
      invariant s == Sum(w[..j]) && sq == SumSq(w[..j])
    {
      assert w[..j + 1] == w[..j] + [w[j]];
      SumsSnoc(w[..j], w[j]);
      s, sq := s + w[j], sq + w[j] * w[j];
      j := j + 1;
    }
    assert w[..j] == w;
  }

  /** Starting from the first window's sums, reports every window's mean and
      variance and updates the sums by the sample that leaves and the one that
      enters. */
  method SlideWindow(data: seq<real>, m: int, s0: real, sq0: real) returns (means: seq<real>, variances: seq<real>)
    requires 0 < m <= |data|
    requires s0 == Sum(data[0..m]) && sq0 == SumSq(data[0..m])
    ensures |means| == |variances| == |data| - m + 1
    ensures forall k :: 0 <= k < |means| ==> means[k] == Mean(data[k..k + m])
    ensures forall k :: 0 <= k < |variances| ==> variances[k] == Variance(data[k..k + m])
  {
    var size := m as real;
    var s, sq := s0, sq0;
    var n := |data| - m + 1;
    means, variances := [], [];
    var i := 0;
    while i < n
      invariant 0 <= i <= n
      invariant |means| == |variances| == i
      invariant forall k :: 0 <= k < i ==> means[k] == Mean(data[k..k + m])
      invariant forall k :: 0 <= k < i ==> variances[k] == Variance(data[k..k + m])
      invariant i < n ==> s == Sum(data[i..i + m]) && sq == SumSq(data[i..i + m])
    {
      var mu, v := WindowStats(data[i..i + m], s, sq, size);
      means, variances := means + [mu], variances + [v];
      if i + 1 < n {
        SlideSums(data, i, m);
        s := s - data[i] + data[i + m];
        sq := sq - data[i] * data[i] + data[i + m] * data[i + m];
      }
      i := i + 1;
    }
  }

  /** One window's mean and clamped E[x^2] - E[x]^2 from its running sums. */
  method WindowStats(ghost w: seq<real>, s: real, sq: real, size: real) returns (mu: real, v: real)
    requires |w| > 0 && size == |w| as real
    requires s == Sum(w) && sq == SumSq(w)
    ensures mu == Mean(w) && v == Variance(w)
  {
    mu := s / size;
    v := sq / size - mu * mu;
    WindowFromMoments(w, s, sq, size, mu, v);
    if v < 0.0 {
      v := 0.0;
    }
  }

  /** A window's running sum and sum of squares give its mean and its
      variance, and E[x^2] - E[x]^2 is never negative. */
  lemma WindowFromMoments(w: seq<real>, s: real, sq: real, size: real, mu: real, v: real)
    requires |w| > 0 && size == |w| as real
    requires s == Sum(w) && sq == SumSq(w)
    requires mu == s / size && v == sq / size - mu * mu
    ensures mu == Mean(w) && v == Variance(w) && v >= 0.0
  {
    VarianceByMoments(w);
    VarianceNonNegative(w);
  }

  lemma {:induction false} SumOfAppend(k: Summand, a: seq<real>, b: seq<real>)
    ensures SumOf(k, a + b) == SumOf(k, a) + SumOf(k, b)
  {
    if a == [] {
      assert a + b == b;
    } else {
      assert (a + b)[1..] == a[1..] + b;
      SumOfAppend(k, a[1..], b);
    }
  }

  lemma SumOfOne(k: Summand, x: real)
    ensures SumOf(k, [x]) == Term(k, x)
  {
    assert [x][1..] == [];
  }

  /** Appending one sample adds it to the sum and its square to the sum of squares. */
  lemma SumsSnoc(a: seq<real>, x: real)
    ensures Sum(a + [x]) == Sum(a) + x
    ensures SumSq(a + [x]) == SumSq(a) + x * x
  {
    SumsAppend(a, [x]);
    SumOfOne(Sample, x);
    SumOfOne(Square, x);
  }

  /** The running sums of a concatenation are the sums of its parts. */
  lemma SumsAppend(a: seq<real>, b: seq<real>)
    ensures Sum(a + b) == Sum(a) + Sum(b)
    ensures SumSq(a + b) == SumSq(a) + SumSq(b)
  {
    SumOfAppend(Sample, a, b);
    SumOfAppend(Square, a, b);
  }

  /** Shifting the window by one sample drops data[i] and takes in data[i + m]. */
  lemma SlideSums(data: seq<real>, i: nat, m: nat)
    requires i + m < |data|
    ensures Sum(data[i + 1..i + 1 + m]) == Sum(data[i..i + m]) - data[i] + data[i + m]
    ensures SumSq(data[i + 1..i + 1 + m]) == SumSq(data[i..i + m]) - data[i] * data[i] + data[i + m] * data[i + m]
  {
    var w := data[i..i + m + 1];
    assert w == [data[i]] + data[i + 1..i + 1 + m];
    assert w == data[i..i + m] + [data[i + m]];
    SumsAppend([data[i]], data[i + 1..i + 1 + m]);
    SumsAppend(data[i..i + m], [data[i + m]]);
    SumOfOne(Sample, data[i]);
    SumOfOne(Square, data[i]);
    SumOfOne(Sample, data[i + m]);
    SumOfOne(Square, data[i + m]);
  }

  /** The sum of squared deviations from c, expanded. */
  lemma {:induction false} SqDevExpand(s: seq<real>, c: real)
    ensures SqDev(s, c) == SumSq(s) - 2.0 * c * Sum(s) + (|s| as real) * c * c
  {
    if s == [] {
      assert SqDev(s, c) == SumSq(s) == Sum(s) == 0.0;
      assert (|s| as real) * c * c == 0.0;
    } else {
      var t := s[1..];
      SqDevExpand(t, c);
      assert |s| as real == (|t| as real) + 1.0;
      ExpandStep(s[0], c, SumSq(t), Sum(t), |t| as real, SqDev(t, c),
                 SumSq(s), Sum(s), |s| as real, SqDev(s, c));
    }
  }

  /** Adding one sample x to the expansion of the squared deviations. */
  lemma ExpandStep(x: real, c: real, q: real, t: real, k: real, d: real,
                    q': real, t': real, k': real, d': real)
    requires d == q - 2.0 * c * t + k * c * c
    requires q' == x * x + q && t' == x + t && k' == k + 1.0 && d' == (x - c) * (x - c) + d
    ensures d' == q' - 2.0 * c * t' + k' * c * c
  {
  }

  /** The mean squared deviation from any c, in terms of E[x^2] and E[x]. */
  lemma {:induction false} MeanSqDevExpand(w: seq<real>, c: real)
    requires |w| > 0
    ensures MeanSqDev(w, c) == MeanSquare(w) - 2.0 * c * Mean(w) + c * c
  {
    SqDevExpand(w, c);
    DivideExpansion(|w| as real, Sum(w), SumSq(w), SqDev(w, c), c);
  }

  /** SqDevExpand divided through by the number of samples n. */
  lemma DivideExpansion(n: real, sum: real, sumSq: real, dev: real, c: real)
    requires n > 0.0
    requires dev == sumSq - 2.0 * c * sum + n * c * c
    ensures dev / n == sumSq / n - 2.0 * c * (sum / n) + c * c
  {
    assert dev / n == sumSq / n - 2.0 * c * sum / n + n * c * c / n;
  }

  /** The variance is the mean of the squares less the square of the mean:
      the moments the rolling computation keeps give each window's variance. */
  lemma {:induction false} VarianceByMoments(w: seq<real>)
    requires |w| > 0
    ensures Variance(w) == MeanSquare(w) - Mean(w) * Mean(w)
  {
    MeanSqDevExpand(w, Mean(w));
  }

  lemma {:induction false} SqDevNonNegative(s: seq<real>, c: real)
    ensures SqDev(s, c) >= 0.0
  {
    if s != [] {
      SqDevNonNegative(s[1..], c);
      var d := s[0] - c;
      assert d * d >= 0.0 by {
        if d < 0.0 {
          assert d * d == (-d) * (-d);
        }
      }
    }
  }

  /** A variance is never negative, so clamping E[x^2] - E[x]^2 at zero changes
      nothing in exact arithmetic. */
  lemma VarianceNonNegative(w: seq<real>)
    requires |w| > 0
    ensures Variance(w) >= 0.0
  {
    SqDevNonNegative(w, Mean(w));
  }

  lemma {:induction false} ConstantSums(s: seq<real>, c: real)
    requires forall k :: 0 <= k < |s| ==> s[k] == c
    ensures Sum(s) == (|s| as real) * c
    ensures SqDev(s, c) == 0.0
  {
    if s != [] {
      ConstantSums(s[1..], c);
    }
  }

  /** On a constant series every window has that constant as its mean and a
      spread of exactly zero. */
  lemma ConstantSeries(data: seq<real>, c: real, m: int)
    requires forall k :: 0 <= k < |data| ==> data[k] == c
    requires ValidWindow(data, m)
    ensures MovMeanStd(data, m).Ok?
    ensures forall i :: 0 <= i < |data| - m + 1 ==> MovMeanStd(data, m).value.means[i] == c
    ensures forall i :: 0 <= i < |data| - m + 1 ==> MovMeanStd(data, m).value.variances[i] == 0.0
  {
    var st := MovMeanStd(data, m).value;
    forall i | 0 <= i < |data| - m + 1
      ensures st.means[i] == c && st.variances[i] == 0.0
    {
      var w := data[i..i + m];
      ConstantSums(w, c);
      var n := m as real;
      assert Sum(w) / n == c;
    }
  }

  /** The cases fixed by the test: empty data and a zero window fail,
      a window as long as the data gives one entry. */
  lemma ExampleShapes()
    ensures MovMeanStd([], 4).Err?
    ensures MovMeanStd([], 0).Err?
    ensures MovMeanStd([1.0, 1.0, 1.0, 1.0], 0).Err?
    ensures |MovMeanStd([1.0, 1.0, 1.0, 1.0], 4).value.means| == 1
    ensures |MovMeanStd([1.0, 1.0, 1.0, 1.0], 2).value.variances| == 3
  {
  }

  /** The test series 1, 2, 4, 8 with windows of two: means 1.5, 3, 6 and
      standard deviations 0.5, 1, 2, whose squares are 0.25, 1, 4. */
  lemma ExampleDoubling()
    ensures MovMeanStd([1.0, 2.0, 4.0, 8.0], 2) == Ok(Stats([1.5, 3.0, 6.0], [0.25, 1.0, 4.0]))
  {
    var d := [1.0, 2.0, 4.0, 8.0];
    var st := MovMeanStd(d, 2).value;
    PairWindow(d, 0, 1.0, 2.0);
    PairWindow(d, 1, 2.0, 4.0);
    PairWindow(d, 2, 4.0, 8.0);
    assert st.means[0] == 1.5 && st.variances[0] == 0.25;
    assert st.means[1] == 3.0 && st.variances[1] == 1.0;
    assert st.means[2] == 6.0 && st.variances[2] == 4.0;
    assert st.means == [1.5, 3.0, 6.0];
    assert st.variances == [0.25, 1.0, 4.0];
  }

  /** The test series 1, -1, -1, 1 with windows of two: means 0, -1, 0 and
      standard deviations 1, 0, 1, whose squares are the same. */
  lemma ExampleAlternating()
    ensures MovMeanStd([1.0, -1.0, -1.0, 1.0], 2) == Ok(Stats([0.0, -1.0, 0.0], [1.0, 0.0, 1.0]))
  {
    var d := [1.0, -1.0, -1.0, 1.0];
    var st := MovMeanStd(d, 2).value;
    PairWindow(d, 0, 1.0, -1.0);
    PairWindow(d, 1, -1.0, -1.0);
    PairWindow(d, 2, -1.0, 1.0);
    assert st.means[0] == 0.0 && st.variances[0] == 1.0;
    assert st.means[1] == -1.0 && st.variances[1] == 0.0;
    assert st.means[2] == 0.0 && st.variances[2] == 1.0;
    assert st.means == [0.0, -1.0, 0.0];
    assert st.variances == [1.0, 0.0, 1.0];
  }

  /** Window i of a series, for windows of two, is [a, b]. */
  lemma PairWindow(d: seq<real>, i: int, a: real, b: real)
    requires 0 <= i && i + 1 < |d| && d[i] == a && d[i + 1] == b
    ensures MovMeanStd(d, 2).value.means[i] == (a + b) / 2.0
    ensures MovMeanStd(d, 2).value.variances[i] == (a - b) * (a - b) / 4.0
  {
    assert d[i..i + 2] == [a, b];
    PairStats(a, b);
  }

  /** The mean and variance of a two-sample window. */
  lemma PairStats(a: real, b: real)
    ensures Mean([a, b]) == (a + b) / 2.0
    ensures Variance([a, b]) == (a - b) * (a - b) / 4.0
  {
    var mu := (a + b) / 2.0;
    assert [a, b] == [a] + [b];
    SumOfAppend(Sample, [a], [b]);
    SumOfOne(Sample, a);
    SumOfOne(Sample, b);
    assert Mean([a, b]) == mu;
    SumOfAppend(SqDeviation(mu), [a], [b]);
    SumOfOne(SqDeviation(mu), a);
    SumOfOne(SqDeviation(mu), b);
    assert SqDev([a, b], mu) == (a - mu) * (a - mu) + (b - mu) * (b - mu);
    assert a - mu == (a - b) / 2.0 && b - mu == (b - a) / 2.0;
    assert (a - mu) * (a - mu) == (a - b) * (a - b) / 4.0;
    assert (b - mu) * (b - mu) == (a - b) * (a - b) / 4.0;
    assert SqDev([a, b], mu) == (a - b) * (a - b) / 2.0;
  }
}
