/** A declarative description of what `process` writes, and the proof that
    the engine's single-pass fold writes exactly that.

    For time-ordered input the results are one per window of the grid, from
    the first record's window to the last record's, with no window missing;
    window `k` reports the records whose timestamps fall in it, with the
    textbook mean and sample variance of each column. */
module Reference {
  import opened Wrappers
  import opened Time
  import opened Statistics
  import opened Engine

  /** The values of the records of `rs` that fall in window `k`, in input order */
  function Members(rs: seq<Record>, g: Grid, k: int, cols: nat): (rows: seq<seq<real>>)
    requires g.len > 0
    requires UniformRecords(rs, cols)
    ensures Uniform(rows, cols)
    ensures |rows| <= |rs|
    decreases |rs|
  {
    if |rs| == 0 then []
    else (if Index(g, rs[0].t) == k then [rs[0].vals] else []) + Members(rs[1..], g, k, cols)
  }

  /** The results of a run, window by window */
  function Spec(records: seq<Record>, p: Period): (r: seq<PeriodResult>)
    requires WellFormed(records, p)
    ensures |records| == 0 ==> r == []
    ensures |records| > 0 ==>
      |r| == Index(GridOf(records[0].t, p), records[|records| - 1].t) + 1
  {
    if |records| == 0 then []
    else
      var g := GridOf(records[0].t, p);
      var cols := ExpectedValueCount(records);
      var last := Index(g, records[|records| - 1].t);
      IndexUnique(g, records[0].t, 0);
      IndexMonotone(g, records[0].t, records[|records| - 1].t);
      seq(last + 1, k requires 0 <= k <= last =>
        ExpectedResult(g.origin + k * g.len, Members(records, g, k, cols), cols))
  }

  /** Every record of `rs` falls in window `k` or later */
  predicate From(rs: seq<Record>, g: Grid, k: int)
    requires g.len > 0
  {
    forall i | 0 <= i < |rs| :: Index(g, rs[i].t) >= k
  }

  /** The index of the last window the fold writes, when window `k` is open
      and `rs` remains */
  function LastIndex(rs: seq<Record>, g: Grid, k: int): (last: int)
    requires g.len > 0
    requires From(rs, g, k)
    ensures last >= k
  {
    if |rs| == 0 then k else Index(g, rs[|rs| - 1].t)
  }

  /** What the fold writes from an open window `k` that already holds the
      rows `cur`, with `rs` remaining: windows `k` to the last record's */
  ghost function FeedSpec(rs: seq<Record>, g: Grid, cols: nat, cur: seq<seq<real>>, k: int): seq<PeriodResult>
    requires g.len > 0
    requires UniformRecords(rs, cols) && Uniform(cur, cols)
    requires From(rs, g, k)
  {
    seq(LastIndex(rs, g, k) - k + 1, i requires 0 <= i <= LastIndex(rs, g, k) - k =>
      ExpectedResult(g.origin + (k + i) * g.len,
                     (if i == 0 then cur else []) + Members(rs, g, k + i, cols), cols))
  }

  /** No record of `rs` falls in window `m`: window `m` has no member */
  lemma {:induction false} MembersNone(rs: seq<Record>, g: Grid, m: int, cols: nat)
    requires g.len > 0
    requires UniformRecords(rs, cols)
    requires forall i | 0 <= i < |rs| :: Index(g, rs[i].t) != m
    ensures Members(rs, g, m, cols) == []
    decreases |rs|
  {
    if |rs| > 0 {
      MembersNone(rs[1..], g, m, cols);
    }
  }

  /** A gap window reports what a window without members must */
  lemma GapIsEmptyWindow(start: int, cols: nat)
    ensures Gap(start, cols) == ExpectedResult(start, [], cols)
  {
    FinalizeMatchesReference(start, [], cols);
  }

  /** Sorted records from window `j` on */
  lemma {:induction false} SortedFrom(rs: seq<Record>, g: Grid)
    requires g.len > 0 && |rs| > 0 && Sorted(rs)
    ensures From(rs[1..], g, Index(g, rs[0].t))
    ensures Sorted(rs[1..])
  {
    forall i | 0 <= i < |rs[1..]|
      ensures Index(g, rs[1..][i].t) >= Index(g, rs[0].t)
    {
      IndexMonotone(g, rs[0].t, rs[1..][i].t);
    }
  }

  /** Window `k + i` of the declared results: the open window's rows
      `cur` belong to the first one only */
  lemma {:induction false} FeedSpecAt(rs: seq<Record>, g: Grid, cols: nat, cur: seq<seq<real>>, k: int, i: int)
    requires g.len > 0
    requires UniformRecords(rs, cols) && Uniform(cur, cols)
    requires From(rs, g, k) && 0 <= i <= LastIndex(rs, g, k) - k
    ensures FeedSpec(rs, g, cols, cur, k)[i]
         == ExpectedResult(g.origin + (k + i) * g.len,
                           if i == 0 then cur + Members(rs, g, k, cols) else Members(rs, g, k + i, cols), cols)
  {
    if i > 0 {
      assert [] + Members(rs, g, k + i, cols) == Members(rs, g, k + i, cols);
    }
  }

  /** `FeedSpecAt` by absolute window index `w` */
  lemma {:induction false} FeedSpecWindow(rs: seq<Record>, g: Grid, cols: nat, cur: seq<seq<real>>, k: int, w: int)
    requires g.len > 0
    requires UniformRecords(rs, cols) && Uniform(cur, cols)
    requires From(rs, g, k) && k <= w <= LastIndex(rs, g, k)
    ensures FeedSpec(rs, g, cols, cur, k)[w - k]
         == ExpectedResult(g.origin + w * g.len,
                           if w == k then cur + Members(rs, g, k, cols) else Members(rs, g, w, cols), cols)
  {
    FeedSpecAt(rs, g, cols, cur, k, w - k);
    assert k + (w - k) == w;
  }

  /** The first record's window gains it, every other window keeps its
      members */
  lemma {:induction false} MembersCons(rs: seq<Record>, g: Grid, m: int, cols: nat)
    requires g.len > 0
    requires UniformRecords(rs, cols) && |rs| > 0
    ensures Index(g, rs[0].t) == m ==> Members(rs, g, m, cols) == [rs[0].vals] + Members(rs[1..], g, m, cols)
    ensures Index(g, rs[0].t) != m ==> Members(rs, g, m, cols) == Members(rs[1..], g, m, cols)
  {
    assert [] + Members(rs[1..], g, m, cols) == Members(rs[1..], g, m, cols);
  }

  /** The remainder ends where `rs` ends */
  lemma {:induction false} LastIndexTail(rs: seq<Record>, g: Grid, k: int, j: int)
    requires g.len > 0
    requires |rs| > 0 && From(rs, g, k) && j == Index(g, rs[0].t) && From(rs[1..], g, j)
    ensures LastIndex(rs, g, k) == LastIndex(rs[1..], g, j)
  {
    if |rs| > 1 {
      assert rs[1..][|rs| - 2] == rs[|rs| - 1];
    }
  }

  /** A record in the open window `k` joins it: the declared results do
      not change when it moves from the remainder to the window's rows */
  lemma {:induction false} SpecJoin(rs: seq<Record>, g: Grid, cols: nat, cur: seq<seq<real>>, k: int)
    requires g.len > 0
    requires UniformRecords(rs, cols) && Uniform(cur, cols)
    requires |rs| > 0 && From(rs, g, k) && Index(g, rs[0].t) == k
    ensures From(rs[1..], g, k) && Uniform(cur + [rs[0].vals], cols)
    ensures FeedSpec(rs, g, cols, cur, k) == FeedSpec(rs[1..], g, cols, cur + [rs[0].vals], k)
  {
    var rest := rs[1..];
    var cur' := cur + [rs[0].vals];
    var spec, spec' := FeedSpec(rs, g, cols, cur, k), FeedSpec(rest, g, cols, cur', k);
    LastIndexTail(rs, g, k, k);
    forall i | 0 <= i < |spec|
      ensures spec[i] == spec'[i]
    {
      JoinAt(rs, g, cols, cur, k, i);
    }
  }

  /** One window of `SpecJoin` */
  lemma {:induction false} JoinAt(rs: seq<Record>, g: Grid, cols: nat, cur: seq<seq<real>>, k: int, i: int)
    requires g.len > 0
    requires UniformRecords(rs, cols) && Uniform(cur, cols)
    requires |rs| > 0 && From(rs, g, k) && Index(g, rs[0].t) == k
    requires From(rs[1..], g, k) && Uniform(cur + [rs[0].vals], cols)
    requires LastIndex(rs, g, k) == LastIndex(rs[1..], g, k)
    requires 0 <= i <= LastIndex(rs, g, k) - k
    ensures FeedSpec(rs, g, cols, cur, k)[i] == FeedSpec(rs[1..], g, cols, cur + [rs[0].vals], k)[i]
  {
    if i == 0 {
      JoinOpen(rs, g, cols, cur, k);
    } else {
      JoinLater(rs, g, cols, cur, k, i);
    }
  }

  /** The open window of `SpecJoin`: the record moves from the remainder's
      members to the window's rows, in the same position */
  lemma {:induction false} JoinOpen(rs: seq<Record>, g: Grid, cols: nat, cur: seq<seq<real>>, k: int)
    requires g.len > 0
    requires UniformRecords(rs, cols) && Uniform(cur, cols)
    requires |rs| > 0 && From(rs, g, k) && Index(g, rs[0].t) == k
    requires From(rs[1..], g, k) && Uniform(cur + [rs[0].vals], cols)
    ensures FeedSpec(rs, g, cols, cur, k)[0] == FeedSpec(rs[1..], g, cols, cur + [rs[0].vals], k)[0]
  {
    var rest, cur' := rs[1..], cur + [rs[0].vals];
    FeedSpecAt(rs, g, cols, cur, k, 0);
    FeedSpecAt(rest, g, cols, cur', k, 0);
    MembersCons(rs, g, k, cols);
    assert cur + Members(rs, g, k, cols) == cur' + Members(rest, g, k, cols) by {
      assert cur + ([rs[0].vals] + Members(rest, g, k, cols)) == cur' + Members(rest, g, k, cols);
    }
  }

  /** A later window of `SpecJoin`: the record is not among its members */
  lemma {:induction false} JoinLater(rs: seq<Record>, g: Grid, cols: nat, cur: seq<seq<real>>, k: int, i: int)
    requires g.len > 0
    requires UniformRecords(rs, cols) && Uniform(cur, cols)
    requires |rs| > 0 && From(rs, g, k) && Index(g, rs[0].t) == k
    requires From(rs[1..], g, k) && Uniform(cur + [rs[0].vals], cols)
    requires LastIndex(rs, g, k) == LastIndex(rs[1..], g, k)
    requires 0 < i <= LastIndex(rs, g, k) - k
    ensures FeedSpec(rs, g, cols, cur, k)[i] == FeedSpec(rs[1..], g, cols, cur + [rs[0].vals], k)[i]
  {
    FeedSpecAt(rs, g, cols, cur, k, i);
    FeedSpecAt(rs[1..], g, cols, cur + [rs[0].vals], k, i);
    MembersCons(rs, g, k + i, cols);
  }

  /** A record in a later window `j` closes the open window `k`: the
      declared results are window `k` with its rows, a gap for every window
      strictly between, then what follows from window `j` holding the record */
  lemma {:induction false} SpecClose(rs: seq<Record>, g: Grid, cols: nat, cur: seq<seq<real>>, k: int, j: int)
    requires g.len > 0
    requires UniformRecords(rs, cols) && Uniform(cur, cols)
    requires |rs| > 0 && From(rs, g, k) && j == Index(g, rs[0].t) && j > k
    requires From(rs[1..], g, j)
    ensures FeedSpec(rs, g, cols, cur, k)
         == [ExpectedResult(g.origin + k * g.len, cur, cols)]
          + seq(j - k - 1, i requires 0 <= i < j - k - 1 => Gap(g.origin + (k + 1) * g.len + i * g.len, cols))
          + FeedSpec(rs[1..], g, cols, [rs[0].vals], j)
  {
    var O, L, rec, rest := g.origin, g.len, rs[0], rs[1..];
    var n := j - k - 1;
    var gaps := seq(n, i requires 0 <= i < n => Gap(O + (k + 1) * L + i * L, cols));
    var spec, spec' := FeedSpec(rs, g, cols, cur, k), FeedSpec(rest, g, cols, [rec.vals], j);
    var out := [ExpectedResult(O + k * L, cur, cols)] + gaps + spec';
    LastIndexTail(rs, g, k, j);
    assert |spec| == |out|;
    forall i | 0 <= i < |spec|
      ensures spec[i] == out[i]
    {
      if i <= n {
        CloseAt(rs, g, cols, cur, k, j, i);
      } else {
        assert out[i] == spec'[i - n - 1];
        AfterCloseAt(rs, g, cols, cur, k, j, i - n - 1);
      }
    }
  }

  /** The closed window and the gaps of `SpecClose` */
  lemma {:induction false} CloseAt(rs: seq<Record>, g: Grid, cols: nat, cur: seq<seq<real>>, k: int, j: int, i: int)
    requires g.len > 0
    requires UniformRecords(rs, cols) && Uniform(cur, cols)
    requires |rs| > 0 && From(rs, g, k) && j == Index(g, rs[0].t) && j > k
    requires From(rs[1..], g, j)
    requires 0 <= i < j - k
    ensures i <= LastIndex(rs, g, k) - k
    ensures FeedSpec(rs, g, cols, cur, k)[i]
         == if i == 0 then ExpectedResult(g.origin + k * g.len, cur, cols)
            else Gap(g.origin + (k + 1) * g.len + (i - 1) * g.len, cols)
  {
    LastIndexTail(rs, g, k, j);
    FeedSpecAt(rs, g, cols, cur, k, i);
    var m := k + i;
    assert forall r | 0 <= r < |rs| :: Index(g, rs[r].t) != m by {
      forall r | 0 <= r < |rs|
        ensures Index(g, rs[r].t) != m
      {
        if r > 0 {
          assert rs[r] == rs[1..][r - 1];
        }
      }
    }
    MembersNone(rs, g, m, cols);
    if i == 0 {
      assert cur + [] == cur;
    } else {
      var s := g.origin + m * g.len;
      GridShift(g.origin, g.len, k + 1, i - 1);
      assert g.origin + (k + 1) * g.len + (i - 1) * g.len == s;
      GapIsEmptyWindow(s, cols);
    }
  }

  /** The windows from the record's window `j` on, in `SpecClose` */
  lemma {:induction false} AfterCloseAt(rs: seq<Record>, g: Grid, cols: nat, cur: seq<seq<real>>, k: int, j: int, i: int)
    requires g.len > 0
    requires UniformRecords(rs, cols) && Uniform(cur, cols)
    requires |rs| > 0 && From(rs, g, k) && j == Index(g, rs[0].t) && j > k
    requires From(rs[1..], g, j)
    requires 0 <= i <= LastIndex(rs[1..], g, j) - j
    ensures j - k + i <= LastIndex(rs, g, k) - k
    ensures FeedSpec(rs, g, cols, cur, k)[j - k + i] == FeedSpec(rs[1..], g, cols, [rs[0].vals], j)[i]
  {
    LastIndexTail(rs, g, k, j);
    var w := j + i;
    assert w - k == j - k + i && w - j == i;
    FeedSpecWindow(rs, g, cols, cur, k, w);
    FeedSpecWindow(rs[1..], g, cols, [rs[0].vals], j, w);
    MembersCons(rs, g, w, cols);
  }

  /** Grid points add up: a + b windows after the origin */
  lemma GridShift(O: int, L: int, a: int, b: int)
    ensures O + a * L + b * L == O + (a + b) * L
  {
  }

  /** At end of input the fold writes the open window `k` alone */
  lemma {:induction false} FeedLast(g: Grid, cols: nat, cur: seq<seq<real>>, k: int)
    requires g.len > 0
    requires Uniform(cur, cols)
    ensures Feed([], g, cols, Some(Window(g.origin + k * g.len, AccOf(cur, cols))))
         == FeedSpec([], g, cols, cur, k)
  {
    var s := g.origin + k * g.len;
    FinalizeMatchesReference(s, cur, cols);
    assert cur + [] == cur;
    FeedSpecAt([], g, cols, cur, k, 0);
  }

  /** The fold's step for a record in the open window `k`, given the fold
      over the remainder */
  lemma {:induction false} FeedJoinStep(rs: seq<Record>, g: Grid, cols: nat, cur: seq<seq<real>>, k: int)
    requires g.len > 0
    requires UniformRecords(rs, cols) && Uniform(cur, cols)
    requires |rs| > 0 && From(rs, g, k) && Index(g, rs[0].t) == k
    requires Uniform(cur + [rs[0].vals], cols) && From(rs[1..], g, k)
    requires Feed(rs[1..], g, cols, Some(Window(g.origin + k * g.len, AccOf(cur + [rs[0].vals], cols))))
          == FeedSpec(rs[1..], g, cols, cur + [rs[0].vals], k)
    ensures Feed(rs, g, cols, Some(Window(g.origin + k * g.len, AccOf(cur, cols))))
         == FeedSpec(rs, g, cols, cur, k)
  {
    var s, rec := g.origin + k * g.len, rs[0];
    var open := Some(Window(s, AccOf(cur, cols)));
    var cur' := cur + [rec.vals];
    assert cur'[..|cur'| - 1] == cur;
    var next := Next(g, cols, open, rec);
    assert WindowStart(g, rec.t) == s;
    assert next == Some(Window(s, AccOf(cur', cols)));
    assert Feed(rs, g, cols, open) == [] + Feed(rs[1..], g, cols, next);
    SpecJoin(rs, g, cols, cur, k);
  }

  /** A record in a later window `j` closes the open window `k`, writing
      it and one gap per window strictly between, and opens window `j`
      holding only that record */
  lemma {:induction false} CloseEmits(g: Grid, cols: nat, cur: seq<seq<real>>, k: int, rec: Record, j: int)
    requires g.len > 0
    requires Uniform(cur, cols) && |rec.vals| == cols
    requires j == Index(g, rec.t) && j > k
    ensures var open := Some(Window(g.origin + k * g.len, AccOf(cur, cols)));
      && Next(g, cols, open, rec) == Some(Window(g.origin + j * g.len, AccOf([rec.vals], cols)))
      && Emitted(g, cols, open, rec)
         == [ExpectedResult(g.origin + k * g.len, cur, cols)]
          + seq(j - k - 1, i requires 0 <= i < j - k - 1 => Gap(g.origin + (k + 1) * g.len + i * g.len, cols))
  {
    var O, L := g.origin, g.len;
    var s := O + k * L;
    var open := Some(Window(s, AccOf(cur, cols)));
    GridPointsOrdered(g, k, j);
    assert [rec.vals][..0] == [];
    var n, from := j - k - 1, O + (k + 1) * L;
    GridShift(O, L, k, 1);
    GridShift(O, L, k + 1, n);
    GapsBetweenGridPoints(from, n, L, cols);
    FinalizeMatchesReference(s, cur, cols);
  }

  /** The fold's step for a record in a later window `j`, given the fold
      over the remainder */
  lemma {:induction false} FeedCloseStep(rs: seq<Record>, g: Grid, cols: nat, cur: seq<seq<real>>, k: int, j: int)
    requires g.len > 0
    requires UniformRecords(rs, cols) && Uniform(cur, cols)
    requires |rs| > 0 && From(rs, g, k) && j == Index(g, rs[0].t) && j > k
    requires From(rs[1..], g, j)
    requires Feed(rs[1..], g, cols, Some(Window(g.origin + j * g.len, AccOf([rs[0].vals], cols))))
          == FeedSpec(rs[1..], g, cols, [rs[0].vals], j)
    ensures Feed(rs, g, cols, Some(Window(g.origin + k * g.len, AccOf(cur, cols))))
         == FeedSpec(rs, g, cols, cur, k)
  {
    var open := Some(Window(g.origin + k * g.len, AccOf(cur, cols)));
    CloseEmits(g, cols, cur, k, rs[0], j);
    assert Feed(rs, g, cols, open)
        == Emitted(g, cols, open, rs[0]) + Feed(rs[1..], g, cols, Next(g, cols, open, rs[0]));
    SpecClose(rs, g, cols, cur, k, j);
  }

  /** Main induction: from an open window `k` holding `cur`, the fold over
      the sorted remainder `rs` writes window `k` with `cur` and its members
      in `rs`, then every later window up to the last record's */
  lemma {:induction false} FeedMatchesSpec(rs: seq<Record>, g: Grid, cols: nat, cur: seq<seq<real>>, k: int)
    requires g.len > 0
    requires UniformRecords(rs, cols) && Uniform(cur, cols)
    requires Sorted(rs) && From(rs, g, k)
    ensures Feed(rs, g, cols, Some(Window(g.origin + k * g.len, AccOf(cur, cols))))
         == FeedSpec(rs, g, cols, cur, k)
    decreases |rs|
  {
    if |rs| == 0 {
      FeedLast(g, cols, cur, k);
    } else {
      var j := Index(g, rs[0].t);
      SortedFrom(rs, g);
      if j == k {
        SpecJoin(rs, g, cols, cur, k);
        FeedMatchesSpec(rs[1..], g, cols, cur + [rs[0].vals], k);
        FeedJoinStep(rs, g, cols, cur, k);
      } else {
        FeedMatchesSpec(rs[1..], g, cols, [rs[0].vals], j);
        FeedCloseStep(rs, g, cols, cur, k, j);
      }
    }
  }

  /** Window `i` of a run: the first record opens window 0 */
  lemma {:induction false} SpecAt(records: seq<Record>, p: Period, i: int)
    requires WellFormed(records, p) && |records| > 0
    requires From(records[1..], GridOf(records[0].t, p), 0)
    requires 0 <= i <= Index(GridOf(records[0].t, p), records[|records| - 1].t)
    ensures var g := GridOf(records[0].t, p);
      && i <= LastIndex(records[1..], g, 0)
      && i < |Spec(records, p)|
      && Spec(records, p)[i] == FeedSpec(records[1..], g, ExpectedValueCount(records), [records[0].vals], 0)[i]
  {
    var g := GridOf(records[0].t, p);
    var cols := ExpectedValueCount(records);
    var rest := records[1..];
    IndexUnique(g, records[0].t, 0);
    LastIndexTail(records, g, 0, 0);
    FeedSpecAt(rest, g, cols, [records[0].vals], 0, i);
    MembersCons(records, g, i, cols);
  }

  /** The first record opens window 0 holding only itself */
  lemma {:induction false} ProcessFirstStep(records: seq<Record>, p: Period)
    requires WellFormed(records, p) && |records| > 0
    ensures var g := GridOf(records[0].t, p);
      Process(records, p)
        == Feed(records[1..], g, ExpectedValueCount(records),
                Some(Window(g.origin + 0 * g.len, AccOf([records[0].vals], ExpectedValueCount(records)))))
  {
    var g := GridOf(records[0].t, p);
    var cols := ExpectedValueCount(records);
    var rec := records[0];
    IndexUnique(g, rec.t, 0);
    var next := Next(g, cols, None, rec);
    assert [rec.vals][..0] == [];
    assert next == Some(Window(g.origin + 0 * g.len, AccOf([rec.vals], cols)));
    assert Process(records, p) == [] + Feed(records[1..], g, cols, next);
  }

  /** The declared results of a run are those of window 0 holding the first
      record, with the other records remaining */
  lemma {:induction false} SpecFromFirst(records: seq<Record>, p: Period)
    requires WellFormed(records, p) && |records| > 0
    requires From(records[1..], GridOf(records[0].t, p), 0)
    ensures Spec(records, p)
         == FeedSpec(records[1..], GridOf(records[0].t, p), ExpectedValueCount(records), [records[0].vals], 0)
  {
    var g := GridOf(records[0].t, p);
    var spec, spec' := Spec(records, p), FeedSpec(records[1..], g, ExpectedValueCount(records), [records[0].vals], 0);
    IndexUnique(g, records[0].t, 0);
    LastIndexTail(records, g, 0, 0);
    assert |spec| == |spec'|;
    forall i | 0 <= i < |spec|
      ensures spec[i] == spec'[i]
    {
      SpecAt(records, p, i);
    }
  }

  /** For time-ordered input the engine writes exactly the declared results:
      one per window from the first record's to the last record's, each with
      the count, mean and sample variance of the records inside it */
  lemma {:induction false} ProcessMatchesSpec(records: seq<Record>, p: Period)
    requires WellFormed(records, p)
    ensures Process(records, p) == Spec(records, p)
  {
    if |records| > 0 {
      var g := GridOf(records[0].t, p);
      var cols := ExpectedValueCount(records);
      IndexUnique(g, records[0].t, 0);
      SortedFrom(records, g);
      ProcessFirstStep(records, p);
      FeedMatchesSpec(records[1..], g, cols, [records[0].vals], 0);
      SpecFromFirst(records, p);
    }
  }
}
