/** Consequences of the engine writing exactly the declared results: how
    many windows a run writes and where they start, that every record is
    reported by the window that holds it, that no record is lost or counted
    twice, and what a window without records looks like. */
module Properties {
  import opened Wrappers
  import opened Time
  import opened Statistics
  import opened Engine
  import opened Reference

  /** The first record falls in window 0 and the last one in the last
      window; every record's window lies between */
  lemma {:induction false} IndexRange(records: seq<Record>, p: Period, i: int)
    requires WellFormed(records, p) && 0 <= i < |records|
    ensures var g := GridOf(records[0].t, p);
      0 <= Index(g, records[i].t) <= Index(g, records[|records| - 1].t)
  {
    var g := GridOf(records[0].t, p);
    IndexUnique(g, records[0].t, 0);
    IndexMonotone(g, records[0].t, records[i].t);
    IndexMonotone(g, records[i].t, records[|records| - 1].t);
  }

  /** A run writes one result per window from the first record's window to
      the last record's, none missing and none repeated: result `k` starts
      `k` whole periods after the first record's timestamp truncated to the
      period's unit */
  lemma {:induction false} ProcessWindows(records: seq<Record>, p: Period)
    requires WellFormed(records, p) && |records| > 0
    ensures var g := GridOf(records[0].t, p);
      var r := Process(records, p);
      && |r| == Index(g, records[|records| - 1].t) + 1
      && (forall k | 0 <= k < |r| :: r[k].start == Truncate(records[0].t, p.unitSeconds) + k * p.Length())
  {
    ProcessMatchesSpec(records, p);
    IndexRange(records, p, |records| - 1);
  }

  /** Consecutive results start exactly one period apart */
  lemma {:induction false} ProcessContiguous(records: seq<Record>, p: Period, k: int)
    requires WellFormed(records, p)
    requires 0 <= k && k + 1 < |Process(records, p)|
    ensures Process(records, p)[k + 1].start == Process(records, p)[k].start + p.Length()
  {
    ProcessWindows(records, p);
    var o, L := Truncate(records[0].t, p.unitSeconds), p.Length();
    assert o + (k + 1) * L == o + k * L + L;
  }

  /** A record that falls in window `k` is one of its members */
  lemma {:induction false} MembersHas(rs: seq<Record>, g: Grid, cols: nat, i: int)
    requires g.len > 0 && UniformRecords(rs, cols)
    requires 0 <= i < |rs|
    ensures |Members(rs, g, Index(g, rs[i].t), cols)| >= 1
    decreases |rs|
  {
    var k := Index(g, rs[i].t);
    MembersCons(rs, g, k, cols);
    if i > 0 {
      assert rs[1..][i - 1] == rs[i];
      MembersHas(rs[1..], g, cols, i - 1);
    }
  }

  /** Every record is reported by the result of the window that holds it:
      that result's window contains the record's timestamp and counts at
      least one record */
  lemma {:induction false} RecordCovered(records: seq<Record>, p: Period, i: int)
    requires WellFormed(records, p) && 0 <= i < |records|
    ensures var g := GridOf(records[0].t, p);
      var k := Index(g, records[i].t);
      var r := Process(records, p);
      && 0 <= k < |r|
      && r[k].start <= records[i].t < r[k].start + p.Length()
      && r[k].count >= 1
  {
    var g := GridOf(records[0].t, p);
    var k := Index(g, records[i].t);
    IndexRange(records, p, i);
    ProcessMatchesSpec(records, p);
    MembersHas(records, g, ExpectedValueCount(records), i);
  }

  /** Window `k` of the declared results */
  lemma {:induction false} SpecElem(records: seq<Record>, p: Period, k: int)
    requires WellFormed(records, p) && |records| > 0
    requires 0 <= k <= Index(GridOf(records[0].t, p), records[|records| - 1].t)
    ensures var g := GridOf(records[0].t, p);
      k < |Spec(records, p)| &&
      Spec(records, p)[k]
        == ExpectedResult(g.origin + k * g.len, Members(records, g, k, ExpectedValueCount(records)), ExpectedValueCount(records))
  {
    var g := GridOf(records[0].t, p);
    var cols := ExpectedValueCount(records);
    var last := Index(g, records[|records| - 1].t);
    IndexUnique(g, records[0].t, 0);
    IndexMonotone(g, records[0].t, records[|records| - 1].t);
    var s := seq(last + 1, k requires 0 <= k <= last =>
      ExpectedResult(g.origin + k * g.len, Members(records, g, k, cols), cols));
    assert Spec(records, p) == s;
  }

  /** The results of window `k` of a run, read off the declared results */
  lemma {:induction false} ProcessAt(records: seq<Record>, p: Period, k: int)
    requires WellFormed(records, p) && 0 <= k < |Process(records, p)|
    ensures |records| > 0
    ensures var g := GridOf(records[0].t, p);
      Process(records, p)[k]
        == ExpectedResult(g.origin + k * g.len, Members(records, g, k, ExpectedValueCount(records)), ExpectedValueCount(records))
  {
    ProcessMatchesSpec(records, p);
    assert |records| > 0;
    SpecElem(records, p, k);
  }

  /** A result counts zero records exactly when no record falls in its
      window; then every column's mean and variance are undefined, and
      otherwise every column's mean and variance are defined */
  lemma {:induction false} EmptyWindowShape(records: seq<Record>, p: Period, k: int)
    requires WellFormed(records, p) && 0 <= k < |Process(records, p)|
    ensures |records| > 0
    ensures var g := GridOf(records[0].t, p);
      var cols := ExpectedValueCount(records);
      var r := Process(records, p)[k];
      && |r.means| == cols && |r.variances| == cols
      && (r.count == 0 <==> forall i | 0 <= i < |records| :: Index(g, records[i].t) != k)
      && (forall c | 0 <= c < cols :: (r.means[c] == None <==> r.count == 0))
      && (forall c | 0 <= c < cols :: (r.variances[c] == None <==> r.count == 0))
  {
    ProcessAt(records, p, k);
    var g := GridOf(records[0].t, p);
    var cols := ExpectedValueCount(records);
    if forall i | 0 <= i < |records| :: Index(g, records[i].t) != k {
      MembersNone(records, g, k, cols);
    } else {
      var i :| 0 <= i < |records| && Index(g, records[i].t) == k;
      MembersHas(records, g, cols, i);
    }
  }

  /** The number of records the results report, in total */
  function TotalCount(r: seq<PeriodResult>): (n: nat)
    ensures |r| > 0 ==> n >= r[|r| - 1].count
  {
    if |r| == 0 then 0 else TotalCount(r[..|r| - 1]) + r[|r| - 1].count
  }

  /** The window index of every record, in input order */
  function Keys(rs: seq<Record>, g: Grid): (ks: seq<int>)
    requires g.len > 0
    ensures |ks| == |rs|
    ensures forall i | 0 <= i < |rs| :: ks[i] == Index(g, rs[i].t)
  {
    seq(|rs|, i requires 0 <= i < |rs| => Index(g, rs[i].t))
  }

  /** How many of the keys equal `m` */
  function Occurrences(ks: seq<int>, m: int): nat {
    if |ks| == 0 then 0 else (if ks[0] == m then 1 else 0) + Occurrences(ks[1..], m)
  }

  /** How many of the keys lie in 0 to n - 1, counted key value by key value */
  function OccurrencesBelow(ks: seq<int>, n: nat): nat {
    if n == 0 then 0 else OccurrencesBelow(ks, n - 1) + Occurrences(ks, n - 1)
  }

  /** A first key outside 0 to n - 1 is not counted */
  lemma {:induction false} BelowSkip(ks: seq<int>, n: nat)
    requires |ks| > 0 && !(0 <= ks[0] < n)
    ensures OccurrencesBelow(ks, n) == OccurrencesBelow(ks[1..], n)
  {
    if n > 0 {
      BelowSkip(ks, n - 1);
    }
  }

  /** A first key inside 0 to n - 1 is counted once */
  lemma {:induction false} BelowTake(ks: seq<int>, n: nat)
    requires |ks| > 0 && 0 <= ks[0] < n
    ensures OccurrencesBelow(ks, n) == 1 + OccurrencesBelow(ks[1..], n)
  {
    if ks[0] == n - 1 {
      BelowSkip(ks, n - 1);
    } else {
      BelowTake(ks, n - 1);
    }
  }

  /** Keys that all lie in 0 to n - 1 are each counted exactly once */
  lemma {:induction false} BelowAll(ks: seq<int>, n: nat)
    requires forall i | 0 <= i < |ks| :: 0 <= ks[i] < n
    ensures OccurrencesBelow(ks, n) == |ks|
    decreases |ks|
  {
    if |ks| == 0 {
      BelowNone(ks, n);
    } else {
      BelowTake(ks, n);
      assert forall i | 0 <= i < |ks[1..]| :: ks[1..][i] == ks[i + 1];
      BelowAll(ks[1..], n);
    }
  }

  /** No key, nothing counted */
  lemma {:induction false} BelowNone(ks: seq<int>, n: nat)
    requires |ks| == 0
    ensures OccurrencesBelow(ks, n) == 0
  {
    if n > 0 {
      BelowNone(ks, n - 1);
    }
  }

  /** Window `m` holds as many records as there are records with window
      index `m` */
  lemma {:induction false} MembersCount(rs: seq<Record>, g: Grid, m: int, cols: nat)
    requires g.len > 0 && UniformRecords(rs, cols)
    ensures |Members(rs, g, m, cols)| == Occurrences(Keys(rs, g), m)
    decreases |rs|
  {
    if |rs| > 0 {
      var ks := Keys(rs, g);
      assert ks[1..] == Keys(rs[1..], g);
      MembersCons(rs, g, m, cols);
      MembersCount(rs[1..], g, m, cols);
    }
  }

  /** The first `m` declared results of a run count the records of its
      first `m` windows */
  lemma {:induction false} TotalCountPrefix(records: seq<Record>, p: Period, m: nat)
    requires WellFormed(records, p) && |records| > 0
    requires m <= Index(GridOf(records[0].t, p), records[|records| - 1].t) + 1
    ensures TotalCount(Spec(records, p)[..m])
         == OccurrencesBelow(Keys(records, GridOf(records[0].t, p)), m)
  {
    if m > 0 {
      var s := Spec(records, p);
      assert s[..m][..m - 1] == s[..m - 1];
      TotalCountPrefix(records, p, m - 1);
      SpecElem(records, p, m - 1);
      MembersCount(records, GridOf(records[0].t, p), m - 1, ExpectedValueCount(records));
    }
  }

  /** No record is lost or counted twice: the counts of all results add up
      to the number of records read */
  lemma {:induction false} CountConservation(records: seq<Record>, p: Period)
    requires WellFormed(records, p)
    ensures TotalCount(Process(records, p)) == |records|
  {
    ProcessMatchesSpec(records, p);
    if |records| > 0 {
      var g := GridOf(records[0].t, p);
      var cols := ExpectedValueCount(records);
      var s := Spec(records, p);
      ProcessWindows(records, p);
      forall i | 0 <= i < |records|
        ensures 0 <= Index(g, records[i].t) < |s|
      {
        IndexRange(records, p, i);
      }
      TotalCountPrefix(records, p, |s|);
      assert s[..|s|] == s;
      BelowAll(Keys(records, g), |s|);
    }
  }
}
