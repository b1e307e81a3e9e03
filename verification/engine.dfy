/** The aggregation engine `StatisticsGenerator.process(reader, writer, period)`.

    The engine reads time-ordered records one at a time and keeps at most one
    open window (its start and running accumulators). A record in the open
    window is folded into it; a record in a later window closes the open one,
    which is written, followed by a count-0 gap result for every skipped
    window, and opens the record's window. At end of input the open window,
    if any, is written. The writer's calls are modelled as the output
    sequence, in call order; the reader as the input sequence. */
module Engine {
  import opened Wrappers
  import opened Time
  import opened Statistics

  /** One input record: a timestamp and one value per column */
  datatype Record = Record(t: int, vals: seq<real>)

  /** The open window of the engine's state machine */
  datatype Window = Window(start: int, acc: Acc)

  /** The reader's `getExpectedValueCount()`: the first record's number of
      values, or 0 when there is no record */
  function ExpectedValueCount(records: seq<Record>): (n: nat)
    ensures UniformRecords(records, n)
        <==> forall i, j | 0 <= i < |records| && 0 <= j < |records| :: |records[i].vals| == |records[j].vals|
  {
    if |records| == 0 then 0 else |records[0].vals|
  }

  /** Every record has `cols` values */
  predicate UniformRecords(rs: seq<Record>, cols: nat) {
    forall i | 0 <= i < |rs| :: |rs[i].vals| == cols
  }

  /** Timestamps never decrease */
  predicate Sorted(rs: seq<Record>) {
    forall i, j | 0 <= i < j < |rs| :: rs[i].t <= rs[j].t
  }

  /** What the engine needs to run: a positive period and one column count
      for the whole run */
  predicate Admissible(records: seq<Record>, p: Period) {
    p.Valid() && UniformRecords(records, ExpectedValueCount(records))
  }

  /** What the engine's guarantees rely on besides: time-ordered records */
  predicate WellFormed(records: seq<Record>, p: Period) {
    Admissible(records, p) && Sorted(records)
  }

  /** The open window, if any, tracks `cols` columns */
  predicate ValidOpen(open: Option<Window>, cols: nat) {
    open.Some? ==> open.value.acc.Valid(cols)
  }

  /** The results written at end of input */
  function Flush(open: Option<Window>): (r: seq<PeriodResult>)
    requires open.Some? ==> |open.value.acc.sums| == |open.value.acc.sumSqs|
    ensures |r| == (if open.Some? then 1 else 0)
    ensures open.Some? ==>
      && r[0].start == open.value.start
      && r[0].count == open.value.acc.count
      && |r[0].means| == |r[0].variances| == |open.value.acc.sums|
  {
    match open
    case None => []
    case Some(w) => [Finalize(w.start, w.acc)]
  }

  /** Gap results for the windows starting at `from`, `from + len`, ... up to
      but excluding `to` */
  function Gaps(from: int, to: int, len: int, cols: nat): (r: seq<PeriodResult>)
    requires len > 0
    ensures r == [] <==> from >= to
    decreases if from < to then to - from else 0
  {
    if from >= to then [] else [Gap(from, cols)] + Gaps(from + len, to, len, cols)
  }

  /** Between two grid points `n` windows apart lie exactly `n` gap windows,
      one per window */
  lemma {:induction false} GapsBetweenGridPoints(from: int, n: nat, len: int, cols: nat)
    requires len > 0
    ensures Gaps(from, from + n * len, len, cols) == seq(n, i requires 0 <= i < n => Gap(from + i * len, cols))
    decreases n
  {
    if n > 0 {
      var to := from + n * len;
      assert to == from + len + (n - 1) * len;
      GapsBetweenGridPoints(from + len, n - 1, len, cols);
      var r := Gaps(from, to, len, cols);
      assert r == [Gap(from, cols)] + Gaps(from + len, to, len, cols);
      forall i | 0 <= i < n
        ensures r[i] == Gap(from + i * len, cols)
      {
        if i > 0 {
          assert from + len + (i - 1) * len == from + i * len;
        }
      }
    }
  }

  /** The window the engine has open after reading `rec`: the open one with
      `rec` folded in when `rec` falls in it, otherwise a fresh window at
      `rec`'s window start holding only `rec` */
  function Next(g: Grid, cols: nat, open: Option<Window>, rec: Record): (next: Option<Window>)
    requires g.len > 0
    requires |rec.vals| == cols && ValidOpen(open, cols)
    ensures ValidOpen(next, cols)
    ensures next.Some? && next.value.start == WindowStart(g, rec.t)
  {
    var s := WindowStart(g, rec.t);
    match open
    case Some(w) =>
      if s == w.start then Some(Window(s, Add(w.acc, rec.vals)))
      else Some(Window(s, Add(Empty(cols), rec.vals)))
    case None => Some(Window(s, Add(Empty(cols), rec.vals)))
  }

  /** What reading `rec` does to the accumulators: when `rec` falls in the
      open window its count grows by one and each column's sum and sum of
      squares grow by `rec`'s value and its square; otherwise the fresh
      window counts `rec` alone and holds only its values */
  lemma {:induction false} NextAccumulates(g: Grid, cols: nat, open: Option<Window>, rec: Record)
    requires g.len > 0
    requires |rec.vals| == cols && ValidOpen(open, cols)
    ensures var joins := open.Some? && open.value.start == WindowStart(g, rec.t);
      var a := Next(g, cols, open, rec).value.acc;
      && a.count == (if joins then open.value.acc.count + 1 else 1)
      && forall j | 0 <= j < cols ::
           && a.sums[j] == (if joins then open.value.acc.sums[j] else 0.0) + rec.vals[j]
           && a.sumSqs[j] == (if joins then open.value.acc.sumSqs[j] else 0.0) + rec.vals[j] * rec.vals[j]
  {
  }

  /** The results written on reading `rec`: nothing while `rec` falls in the
      open window (or none is open); otherwise the open window, then one gap
      result per window strictly between it and `rec`'s window */
  function Emitted(g: Grid, cols: nat, open: Option<Window>, rec: Record): (r: seq<PeriodResult>)
    requires g.len > 0
    requires ValidOpen(open, cols)
    ensures r == [] <==> open.None? || open.value.start == WindowStart(g, rec.t)
    ensures r != [] ==> r[0].start == open.value.start
  {
    var s := WindowStart(g, rec.t);
    match open
    case Some(w) =>
      if s == w.start then []
      else [Finalize(w.start, w.acc)] + Gaps(w.start + g.len, s, g.len, cols)
    case None => []
  }

  /** The engine's fold over the remaining records `rs` from state `open`:
      every result it writes from here to end of input */
  function Feed(rs: seq<Record>, g: Grid, cols: nat, open: Option<Window>): (r: seq<PeriodResult>)
    requires g.len > 0
    requires UniformRecords(rs, cols)
    requires ValidOpen(open, cols)
    ensures r == [] <==> open.None? && rs == []
    decreases |rs|
  {
    if |rs| == 0 then Flush(open)
    else Emitted(g, cols, open, rs[0]) + Feed(rs[1..], g, cols, Next(g, cols, open, rs[0]))
  }

  /** The fold writes something exactly when a window is or will be open;
      its first result is the open window (or the first record's window),
      and its last result is the window of the last record */
  lemma {:induction false} FeedEnds(rs: seq<Record>, g: Grid, cols: nat, open: Option<Window>)
    requires g.len > 0
    requires UniformRecords(rs, cols)
    requires ValidOpen(open, cols)
    ensures var r := Feed(rs, g, cols, open);
      && (r == [] <==> open.None? && rs == [])
      && (open.Some? ==> r[0].start == open.value.start)
      && (open.None? && rs != [] ==> r[0].start == WindowStart(g, rs[0].t))
      && (rs != [] ==> r[|r| - 1].start == WindowStart(g, rs[|rs| - 1].t))
    decreases |rs|
  {
    if |rs| > 0 {
      var next := Next(g, cols, open, rs[0]);
      FeedEnds(rs[1..], g, cols, next);
      var tail := Feed(rs[1..], g, cols, next);
      if |rs| == 1 {
        assert tail == [Finalize(next.value.start, next.value.acc)];
      } else {
        assert rs[1..][|rs[1..]| - 1] == rs[|rs| - 1];
      }
    }
  }

  /** `process(reader, writer, period)`: the results written, in order */
  function Process(records: seq<Record>, p: Period): (r: seq<PeriodResult>)
    requires Admissible(records, p)
    ensures r == [] <==> records == []
  {
    if |records| == 0 then []
    else Feed(records, GridOf(records[0].t, p), ExpectedValueCount(records), None)
  }

  /** No input, no result. Otherwise the first result is the window at the
      first record's timestamp truncated to the period's unit, and the last
      one is the window holding the last record. */
  lemma {:induction false} ProcessEnds(records: seq<Record>, p: Period)
    requires Admissible(records, p)
    ensures var r := Process(records, p);
      && (r == [] <==> records == [])
      && (records != [] ==>
            && r[0].start == Truncate(records[0].t, p.unitSeconds)
            && r[|r| - 1].start == WindowStart(GridOf(records[0].t, p), records[|records| - 1].t))
  {
    if records != [] {
      var g := GridOf(records[0].t, p);
      FeedEnds(records, g, ExpectedValueCount(records), None);
      IndexUnique(g, records[0].t, 0);
    }
  }

  /** Writing one more result `f` of the pending ones keeps the total */
  lemma {:induction false} CloseStep(out: seq<PeriodResult>, f: PeriodResult, pending: seq<PeriodResult>,
                  rest: seq<PeriodResult>, target: seq<PeriodResult>)
    requires out + ([f] + pending + rest) == target
    ensures out + [f] + pending + rest == target
  {
  }

  /** Writes the gap results for the windows starting at `from`,
      `from + len`, ... before `to`, one per skipped window */
  method WriteGaps(from: int, to: int, len: int, cols: nat) returns (gaps: seq<PeriodResult>)
    requires len > 0
    ensures gaps == Gaps(from, to, len, cols)
  {
    gaps := [];
    var gap := from;
    while gap < to
      invariant gaps + Gaps(gap, to, len, cols) == Gaps(from, to, len, cols)
      decreases if gap < to then to - gap else 0
    {
      ghost var later := Gaps(gap + len, to, len, cols);
      assert Gaps(gap, to, len, cols) == [Gap(gap, cols)] + later;
      assert gaps + ([Gap(gap, cols)] + later) == (gaps + [Gap(gap, cols)]) + later;
      gaps := gaps + [Gap(gap, cols)];
      gap := gap + len;
    }
    assert gaps + [] == gaps;
  }

  /** The single-pass pull loop: read a record, write zero or more results,
      holding one open window; at end of input write the open window. It
      writes exactly the results `Process` describes. */
  method Aggregate(records: seq<Record>, p: Period) returns (out: seq<PeriodResult>)
    requires Admissible(records, p)
    ensures out == Process(records, p)
  {
    out := [];
    if |records| == 0 {
      return;
    }
    var g := GridOf(records[0].t, p);
    var cols := ExpectedValueCount(records);
    var open: Option<Window> := None;
    ghost var target := Process(records, p);
    assert records[0..] == records;
    var i := 0;
    while i < |records|
      invariant 0 <= i <= |records|
      invariant ValidOpen(open, cols)
      invariant out + Feed(records[i..], g, cols, open) == target
    {
      var rec := records[i];
      var next := Next(g, cols, open, rec);
      assert records[i..][0] == rec && records[i..][1..] == records[i + 1..];
      ghost var rest := Feed(records[i + 1..], g, cols, next);
      assert Feed(records[i..], g, cols, open) == Emitted(g, cols, open, rec) + rest;
      var s := WindowStart(g, rec.t);
      if open.Some? && s != open.value.start {
        var w := open.value;
        var gaps := WriteGaps(w.start + g.len, s, g.len, cols);
        assert Emitted(g, cols, open, rec) == [Finalize(w.start, w.acc)] + gaps;
        CloseStep(out, Finalize(w.start, w.acc), gaps, rest, target);
        out := out + [Finalize(w.start, w.acc)] + gaps;
      } else {
        assert Emitted(g, cols, open, rec) == [];
        assert [] + rest == rest;
      }
      assert out + rest == target;
      open := next;
      i := i + 1;
      assert records[i..] == records[i - 1 + 1..];
    }
    out := out + Flush(open);
  }
}
