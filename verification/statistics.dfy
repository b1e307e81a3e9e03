/** Per-window statistics.

    While a window is open the engine keeps, per column, only a running sum
    and a running sum of squares, plus one record count shared by all
    columns. Finalizing the window turns them into a mean and a sample
    variance per column. This module also gives the textbook definitions of
    mean and sample variance over the window's values and proves that the
    running accumulators produce exactly them. */
module Statistics {
  import opened Wrappers

  /** The result written for one window: its start, the number of records in
      it, and per column the mean and the sample variance. A statistic that
      is undefined (a window with no records) is `None`. */
  datatype PeriodResult = PeriodResult(
    start: int,
    count: nat,
    means: seq<Option<real>>,
    variances: seq<Option<real>>)

  /** Running accumulators of one open window */
  datatype Acc = Acc(count: nat, sums: seq<real>, sumSqs: seq<real>) {

    /** The accumulators track exactly `cols` columns */
    predicate Valid(cols: nat) {
      |sums| == cols && |sumSqs| == cols
    }
  }

  /** Every row has `cols` values */
  predicate Uniform(rows: seq<seq<real>>, cols: nat) {
    forall i | 0 <= i < |rows| :: |rows[i]| == cols
  }

  // ---------------------------------------------------------------------
  // Reference definitions over the values themselves
  // ---------------------------------------------------------------------

  /** The values of column `j`, one per row, in row order */
  function Column(rows: seq<seq<real>>, j: nat): (c: seq<real>)
    requires forall i | 0 <= i < |rows| :: j < |rows[i]|
    ensures |c| == |rows|
    ensures forall i | 0 <= i < |rows| :: c[i] == rows[i][j]
  {
    seq(|rows|, i requires 0 <= i < |rows| => rows[i][j])
  }

  function Sum(xs: seq<real>): real {
    if |xs| == 0 then 0.0 else Sum(xs[..|xs| - 1]) + xs[|xs| - 1]
  }

  function SumSq(xs: seq<real>): real {
    if |xs| == 0 then 0.0 else SumSq(xs[..|xs| - 1]) + xs[|xs| - 1] * xs[|xs| - 1]
  }

  /** Sum of squared deviations from `m` */
  function SumSqDev(xs: seq<real>, m: real): real {
    if |xs| == 0 then 0.0
    else SumSqDev(xs[..|xs| - 1], m) + (xs[|xs| - 1] - m) * (xs[|xs| - 1] - m)
  }

  function Mean(xs: seq<real>): real
    requires |xs| > 0
  {
    Sum(xs) / |xs| as real
  }

  /** Bessel-corrected variance: squared deviations from the mean divided by
      n - 1; a single value has variance 0 (standard deviation 0.0, not NaN) */
  function SampleVariance(xs: seq<real>): real
    requires |xs| > 0
  {
    if |xs| == 1 then 0.0 else Bessel(SumSqDev(xs, Mean(xs)), |xs| as real)
  }

  /** A sum of squared deviations of `n` values divided by n - 1 */
  function Bessel(dev: real, n: real): real
    requires n > 1.0
  {
    dev / (n - 1.0)
  }

  /** The result a window starting at `start` that received `rows` must
      report, stated with the textbook definitions */
  function ExpectedResult(start: int, rows: seq<seq<real>>, cols: nat): PeriodResult
    requires Uniform(rows, cols)
  {
    PeriodResult(
      start,
      |rows|,
      seq(cols, j requires 0 <= j < cols =>
        if |rows| == 0 then None else Some(Mean(Column(rows, j)))),
      seq(cols, j requires 0 <= j < cols =>
        if |rows| == 0 then None else Some(SampleVariance(Column(rows, j)))))
  }

  // ---------------------------------------------------------------------
  // The running accumulators
  // ---------------------------------------------------------------------

  /** The accumulators of a window that has received no record yet */
  function Empty(cols: nat): (a: Acc)
    ensures a.Valid(cols) && a.count == 0
    ensures forall j | 0 <= j < cols :: a.sums[j] == 0.0 && a.sumSqs[j] == 0.0
  {
    Acc(0, seq(cols, _ => 0.0), seq(cols, _ => 0.0))
  }

  /** Folds one record's values into the accumulators */
  function Add(a: Acc, vals: seq<real>): (a': Acc)
    requires a.Valid(|vals|)
    ensures a'.Valid(|vals|) && a'.count == a.count + 1
    ensures forall j | 0 <= j < |vals| ::
      a'.sums[j] == a.sums[j] + vals[j] && a'.sumSqs[j] == a.sumSqs[j] + vals[j] * vals[j]
  {
    Acc(a.count + 1,
        seq(|vals|, j requires 0 <= j < |vals| => a.sums[j] + vals[j]),
        seq(|vals|, j requires 0 <= j < |vals| => a.sumSqs[j] + vals[j] * vals[j]))
  }

  /** The accumulators after folding `rows` in order into an empty window:
      they hold the count, and per column the sum and the sum of squares, of
      the rows' values */
  function AccOf(rows: seq<seq<real>>, cols: nat): (a: Acc)
    requires Uniform(rows, cols)
    ensures a.Valid(cols) && a.count == |rows|
    ensures forall j | 0 <= j < cols ::
      a.sums[j] == Sum(Column(rows, j)) && a.sumSqs[j] == SumSq(Column(rows, j))
    decreases |rows|
  {
    if |rows| == 0 then Empty(cols)
    else
      var init := rows[..|rows| - 1];
      assert forall j | 0 <= j < cols :: Column(rows, j)[..|rows| - 1] == Column(init, j);
      Add(AccOf(init, cols), rows[|rows| - 1])
  }

  /** A column's mean from its running sum: undefined without records */
  function ColumnMean(count: nat, sum: real): Option<real> {
    if count == 0 then None else Some(sum / count as real)
  }

  /** A column's sample variance from its running sums: undefined without
      records, 0.0 for one record, else (sumSq - sum^2 / n) / (n - 1) */
  function ColumnVariance(count: nat, sum: real, sumSq: real): (r: Option<real>)
    ensures r.None? <==> count == 0
    ensures count == 1 ==> r == Some(0.0)
  {
    if count == 0 then None
    else if count == 1 then Some(0.0)
    else Some(Bessel(sumSq - sum * sum / count as real, count as real))
  }

  /** Turns a window's accumulators into its result, column by column */
  function Finalize(start: int, a: Acc): (r: PeriodResult)
    requires |a.sums| == |a.sumSqs|
    ensures r.start == start && r.count == a.count
    ensures |r.means| == |r.variances| == |a.sums|
  {
    PeriodResult(
      start,
      a.count,
      seq(|a.sums|, j requires 0 <= j < |a.sums| => ColumnMean(a.count, a.sums[j])),
      seq(|a.sums|, j requires 0 <= j < |a.sums| => ColumnVariance(a.count, a.sums[j], a.sumSqs[j])))
  }

  /** A window with no record (a gap) reports count 0 and an undefined mean
      and variance in every column */
  function Gap(start: int, cols: nat): (r: PeriodResult)
    ensures r.start == start && r.count == 0
    ensures |r.means| == cols && |r.variances| == cols
    ensures forall j | 0 <= j < cols :: r.means[j] == None && r.variances[j] == None
  {
    Finalize(start, Empty(cols))
  }

  // ---------------------------------------------------------------------
  // Accumulators agree with the reference definitions
  // ---------------------------------------------------------------------

  /** Expanding the squared deviations of `n` values:
      sum (x - m)^2 == sum x^2 - 2 m sum x + n m^2 */
  lemma {:induction false} SumSqDevExpand(xs: seq<real>, m: real, n: real)
    requires n == |xs| as real
    ensures SumSqDev(xs, m) == SumSq(xs) - 2.0 * m * Sum(xs) + n * m * m
    decreases |xs|
  {
    if |xs| > 0 {
      var init, x := xs[..|xs| - 1], xs[|xs| - 1];
      SumSqDevExpand(init, m, n - 1.0);
      ExpandStep(SumSqDev(init, m), SumSq(init), Sum(init), n - 1.0, x, m,
                 SumSqDev(xs, m), SumSq(xs), Sum(xs), n);
    }
  }

  /** One more value x keeps the expansion: if d == q - 2 m s + k m^2 then
      d + (x - m)^2 == (q + x^2) - 2 m (s + x) + (k + 1) m^2 */
  lemma ExpandStep(d: real, q: real, s: real, k: real, x: real, m: real,
                   d': real, q': real, s': real, k': real)
    requires d == q - 2.0 * m * s + k * m * m
    requires d' == d + (x - m) * (x - m) && q' == q + x * x && s' == s + x && k' == k + 1.0
    ensures d' == q' - 2.0 * m * s' + k' * m * m
  {
  }

  /** With m = s / n: q - 2 m s + n m^2 == q - s^2 / n */
  lemma CompleteSquare(q: real, s: real, n: real, m: real)
    requires n > 0.0 && m == s / n
    ensures q - 2.0 * m * s + n * m * m == q - s * s / n
  {
    assert m * n == s;
    assert n * m * m == s * m;
    assert s * m == s * s / n;
  }

  /** About their mean m = s / n, `n` values with sum s and sum of squares q
      have squared deviations summing to q - s^2 / n */
  lemma {:induction false} DeviationsAboutMean(xs: seq<real>, n: real, s: real, q: real, m: real)
    requires |xs| > 0 && n == |xs| as real
    requires s == Sum(xs) && q == SumSq(xs) && m == s / n
    ensures SumSqDev(xs, m) == q - s * s / n
  {
    SumSqDevExpand(xs, m, n);
    CompleteSquare(q, s, n, m);
  }

  /** The shortcut formula on sums s and q of n >= 2 values is the sum of
      squared deviations `dev` over n - 1, when dev == q - s^2 / n */
  lemma ShortcutVariance(count: nat, s: real, q: real, dev: real)
    requires count >= 2
    requires dev == q - s * s / (count as real)
    ensures ColumnVariance(count, s, q) == Some(Bessel(dev, count as real))
  {
  }

  /** The running sums of at least two values give their sample variance */
  lemma {:induction false} ColumnVarianceIsSample(xs: seq<real>, count: nat, s: real, q: real)
    requires count == |xs| >= 2
    requires s == Sum(xs) && q == SumSq(xs)
    ensures ColumnVariance(count, s, q) == Some(SampleVariance(xs))
  {
    var n := count as real;
    var dev := SumSqDev(xs, s / n);
    assert dev == q - s * s / n by {
      DeviationsAboutMean(xs, n, s, q, s / n);
    }
    assert SampleVariance(xs) == Bessel(dev, n) by {
      assert Mean(xs) == s / n;
    }
    ShortcutVariance(count, s, q, dev);
  }

  /** The running sums of any number of values give their sample variance:
      undefined without values, 0.0 for a single value */
  lemma {:induction false} ColumnVarianceOf(xs: seq<real>, s: real, q: real)
    requires s == Sum(xs) && q == SumSq(xs)
    ensures ColumnVariance(|xs|, s, q) == if |xs| == 0 then None else Some(SampleVariance(xs))
  {
    if |xs| >= 2 {
      ColumnVarianceIsSample(xs, |xs|, s, q);
    }
  }

  /** One column of a finalized window agrees with the reference statistics */
  lemma {:induction false} FinalizeColumn(start: int, rows: seq<seq<real>>, cols: nat, j: nat)
    requires Uniform(rows, cols) && j < cols
    ensures Finalize(start, AccOf(rows, cols)).means[j] == ExpectedResult(start, rows, cols).means[j]
    ensures Finalize(start, AccOf(rows, cols)).variances[j] == ExpectedResult(start, rows, cols).variances[j]
  {
    var a := AccOf(rows, cols);
    var c := Column(rows, j);
    assert a.sums[j] == Sum(c) && a.sumSqs[j] == SumSq(c);
    if |rows| >= 2 {
      ColumnVarianceIsSample(c, a.count, a.sums[j], a.sumSqs[j]);
    }
  }

  /** Folding a window's rows into the accumulators and finalizing yields
      the textbook mean and sample variance of every column */
  lemma {:induction false} FinalizeMatchesReference(start: int, rows: seq<seq<real>>, cols: nat)
    requires Uniform(rows, cols)
    ensures Finalize(start, AccOf(rows, cols)) == ExpectedResult(start, rows, cols)
  {
    var r, e := Finalize(start, AccOf(rows, cols)), ExpectedResult(start, rows, cols);
    forall j | 0 <= j < cols
      ensures r.means[j] == e.means[j] && r.variances[j] == e.variances[j]
    {
      FinalizeColumn(start, rows, cols, j);
    }
    assert r.means == e.means;
    assert r.variances == e.variances;
  }

  /** A window that received exactly one record reports that record's values
      as its means and 0.0 as every variance */
  lemma {:induction false} SingleRecordWindow(start: int, vals: seq<real>)
    ensures var r := Finalize(start, Add(Empty(|vals|), vals));
      && r.count == 1
      && |r.means| == |vals| == |r.variances|
      && forall j | 0 <= j < |vals| :: r.means[j] == Some(vals[j]) && r.variances[j] == Some(0.0)
  {
  }
}
