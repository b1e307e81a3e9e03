/** The runs the engine's tests describe, with the dates replaced by a
    symbolic instant `b`: one window of three records, two adjacent windows,
    two windows with a gap between them, no input, and a single record with
    a period in minutes. Variances are stated where the tests state standard
    deviations: 1.0 for 1.0, 0.0 for 0.0 and 4.5 for 2.1213203435596424 (the
    square root of 4.5). */
module Scenarios {
  import opened Wrappers
  import opened Time
  import opened Statistics
  import opened Engine

  /** With a period counted in seconds the grid starts at the first record */
  lemma {:induction false} SecondsGrid(b: int, amount: int)
    requires amount > 0
    ensures GridOf(b, Period(amount, SECONDS)) == Grid(b, amount)
  {
    DivModUnique(b, 1, b, 0);
  }

  /** A window of one column whose accumulators give this mean and this
      variance reports them */
  lemma {:induction false} OneColumn(start: int, a: Acc, mean: real, variance: real)
    requires |a.sums| == 1 && |a.sumSqs| == 1
    requires ColumnMean(a.count, a.sums[0]) == Some(mean)
    requires ColumnVariance(a.count, a.sums[0], a.sumSqs[0]) == Some(variance)
    ensures Finalize(start, a) == PeriodResult(start, a.count, [Some(mean)], [Some(variance)])
  {
    var r := Finalize(start, a);
    assert r.means[0] == Some(mean);
    assert r.variances[0] == Some(variance);
  }

  /** Records at b, b + 2 and b + 4 with 5.5, 4.5 and 6.5 and a 5-second
      period: a single window at b with 3 records, mean 5.5, variance 1.0 */
  lemma {:induction false} ThreeRecordsOneWindow(b: int)
    ensures Admissible([Record(b, [5.5]), Record(b + 2, [4.5]), Record(b + 4, [6.5])], Period(5, SECONDS))
    ensures Process([Record(b, [5.5]), Record(b + 2, [4.5]), Record(b + 4, [6.5])], Period(5, SECONDS))
         == [PeriodResult(b, 3, [Some(5.5)], [Some(1.0)])]
  {
    var p := Period(5, SECONDS);
    var rs := [Record(b, [5.5]), Record(b + 2, [4.5]), Record(b + 4, [6.5])];
    assert UniformRecords(rs, 1);
    var g := GridOf(b, p);
    SecondsGrid(b, 5);
    IndexUnique(g, b + 2, 0);
    IndexUnique(g, b + 4, 0);
    var a1 := Add(Empty(1), [5.5]);
    var a2 := Add(a1, [4.5]);
    var a3 := Add(a2, [6.5]);
    assert a3 == Acc(3, [16.5], [92.75]);
    var w3 := Some(Window(b, a3));
    assert Feed(rs[3..], g, 1, w3) == [Finalize(b, a3)];
    assert Feed(rs[2..], g, 1, Some(Window(b, a2))) == [] + Feed(rs[3..], g, 1, w3);
    assert Feed(rs[1..], g, 1, Some(Window(b, a1))) == [] + Feed(rs[2..], g, 1, Some(Window(b, a2)));
    assert Feed(rs, g, 1, None) == [] + Feed(rs[1..], g, 1, Some(Window(b, a1)));
    OneColumn(b, a3, 5.5, 1.0);
  }

  /** Records at b, b + 5 and b + 7 with 5.5, 4.5 and 7.5 and a 5-second
      period: a window at b with 1 record (mean 5.5, variance 0.0), then a
      window at b + 5 with 2 records (mean 6.0, variance 4.5) */
  lemma {:induction false} TwoAdjacentWindows(b: int)
    ensures Admissible([Record(b, [5.5]), Record(b + 5, [4.5]), Record(b + 7, [7.5])], Period(5, SECONDS))
    ensures Process([Record(b, [5.5]), Record(b + 5, [4.5]), Record(b + 7, [7.5])], Period(5, SECONDS))
         == [PeriodResult(b, 1, [Some(5.5)], [Some(0.0)]),
             PeriodResult(b + 5, 2, [Some(6.0)], [Some(4.5)])]
  {
    var p := Period(5, SECONDS);
    var rs := [Record(b, [5.5]), Record(b + 5, [4.5]), Record(b + 7, [7.5])];
    assert UniformRecords(rs, 1);
    var g := GridOf(b, p);
    SecondsGrid(b, 5);
    IndexUnique(g, b + 5, 1);
    IndexUnique(g, b + 7, 1);
    var a1 := Add(Empty(1), [5.5]);
    var b1 := Add(Empty(1), [4.5]);
    var b2 := Add(b1, [7.5]);
    assert a1 == Acc(1, [5.5], [30.25]);
    assert b2 == Acc(2, [12.0], [76.5]);
    var w := Some(Window(b + 5, b2));
    assert Feed(rs[3..], g, 1, w) == [Finalize(b + 5, b2)];
    assert Feed(rs[2..], g, 1, Some(Window(b + 5, b1))) == [] + Feed(rs[3..], g, 1, w);
    assert Emitted(g, 1, Some(Window(b, a1)), rs[1]) == [Finalize(b, a1)] + [];
    assert Feed(rs[1..], g, 1, Some(Window(b, a1)))
        == [Finalize(b, a1)] + Feed(rs[2..], g, 1, Some(Window(b + 5, b1)));
    assert Feed(rs, g, 1, None) == [] + Feed(rs[1..], g, 1, Some(Window(b, a1)));
    OneColumn(b, a1, 5.5, 0.0);
    OneColumn(b + 5, b2, 6.0, 4.5);
  }

  /** Records at b, b + 10 and b + 14 with 5.5, 4.5 and 7.5 and a 5-second
      period: a window at b with 1 record, a gap window at b + 5 with count 0
      and undefined mean and variance, then a window at b + 10 with 2
      records (mean 6.0, variance 4.5) */
  lemma {:induction false} WindowsAroundAGap(b: int)
    ensures Admissible([Record(b, [5.5]), Record(b + 10, [4.5]), Record(b + 14, [7.5])], Period(5, SECONDS))
    ensures Process([Record(b, [5.5]), Record(b + 10, [4.5]), Record(b + 14, [7.5])], Period(5, SECONDS))
         == [PeriodResult(b, 1, [Some(5.5)], [Some(0.0)]),
             PeriodResult(b + 5, 0, [None], [None]),
             PeriodResult(b + 10, 2, [Some(6.0)], [Some(4.5)])]
  {
    var p := Period(5, SECONDS);
    var rs := [Record(b, [5.5]), Record(b + 10, [4.5]), Record(b + 14, [7.5])];
    assert UniformRecords(rs, 1);
    var g := GridOf(b, p);
    SecondsGrid(b, 5);
    IndexUnique(g, b + 10, 2);
    IndexUnique(g, b + 14, 2);
    var a1 := Add(Empty(1), [5.5]);
    var b1 := Add(Empty(1), [4.5]);
    var b2 := Add(b1, [7.5]);
    assert a1 == Acc(1, [5.5], [30.25]);
    assert b2 == Acc(2, [12.0], [76.5]);
    var w := Some(Window(b + 10, b2));
    assert Feed(rs[3..], g, 1, w) == [Finalize(b + 10, b2)];
    assert Feed(rs[2..], g, 1, Some(Window(b + 10, b1))) == [] + Feed(rs[3..], g, 1, w);
    var gap := Gap(b + 5, 1);
    assert gap == PeriodResult(b + 5, 0, [None], [None]);
    assert Gaps(b + 5, b + 10, 5, 1) == [gap] + Gaps(b + 10, b + 10, 5, 1);
    assert Emitted(g, 1, Some(Window(b, a1)), rs[1]) == [Finalize(b, a1)] + [gap];
    assert Feed(rs[1..], g, 1, Some(Window(b, a1)))
        == [Finalize(b, a1)] + [gap] + Feed(rs[2..], g, 1, Some(Window(b + 10, b1)));
    assert Feed(rs, g, 1, None) == [] + Feed(rs[1..], g, 1, Some(Window(b, a1)));
    OneColumn(b, a1, 5.5, 0.0);
    OneColumn(b + 10, b2, 6.0, 4.5);
  }

  /** No record, no result; the aggregation loop writes nothing either */
  method NoRecords(p: Period) returns (out: seq<PeriodResult>)
    requires p.Valid()
    ensures out == [] && Process([], p) == []
  {
    out := Aggregate([], p);
  }

  /** One record at m + 10 where m is a whole minute, with a 5-minute period:
      one window starting at m, the record's timestamp truncated to the
      minute (not to the period), with 1 record, mean 5.5, variance 0.0 */
  lemma {:induction false} SingleRecordMinutes(m: int)
    requires m % MINUTES == 0
    ensures Admissible([Record(m + 10, [5.5])], Period(5, MINUTES))
    ensures Process([Record(m + 10, [5.5])], Period(5, MINUTES))
         == [PeriodResult(m, 1, [Some(5.5)], [Some(0.0)])]
  {
    var p := Period(5, MINUTES);
    var rs := [Record(m + 10, [5.5])];
    assert UniformRecords(rs, 1);
    DivModUnique(m + 10, 60, m / 60, 10);
    var g := GridOf(m + 10, p);
    assert g == Grid(m, 300);
    IndexUnique(g, m + 10, 0);
    var a1 := Add(Empty(1), [5.5]);
    assert a1 == Acc(1, [5.5], [30.25]);
    assert Feed(rs[1..], g, 1, Some(Window(m, a1))) == [Finalize(m, a1)];
    assert Feed(rs, g, 1, None) == [] + Feed(rs[1..], g, 1, Some(Window(m, a1)));
    OneColumn(m, a1, 5.5, 0.0);
  }
}
