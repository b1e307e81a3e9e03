# statzy aggregation engine, modelled in Dafny

This project models `StatisticsGenerator.process(reader, writer, period)`, the
aggregation engine of statzy. The engine reads time-ordered records. Each
record is a timestamp plus a fixed number of numeric columns. The engine
buckets the records into fixed-width windows ("periods") and writes, per
window, the window start, the record count, and per column the mean and the
sample standard deviation.

The grid of windows starts at the first record's timestamp truncated to the
period's unit. It then advances by whole periods. The last result therefore
starts at the grid point at or before the last record (`Engine.ProcessEnds`).
That can be earlier than the last record's timestamp truncated to the unit. The engine holds one open
window with running accumulators: a count, and per column a sum and a sum of
squares. A record in a later window closes the open window. The closed window
is written, then a count-0 result with NaN statistics for every skipped
window, and the record's window is opened. At end of input the open window is
written. No input means no write.

The engine's own source is not part of this model. Its behaviour follows the
unit tests in `src/test/java/core/StatsGeneratorTest.java`: the five
`process_*` scenarios and the reader stub's contract.

Modules, one file each:

- `Wrappers` (`wrappers.dfy`): `Option`. `None` stands for NaN.
- `Time` (`time.dfy`): timestamps as integer seconds; `Period(amount, unitSeconds)`; truncation; the window grid (`Grid`, `Index`, `WindowStart`).
- `Statistics` (`statistics.dfy`): the running accumulators (`Acc`, `Empty`, `Add`, `Finalize`) and the result type `PeriodResult`. It also gives the textbook mean and sample variance over the values themselves, and proves that the accumulators produce exactly them.
- `Engine` (`engine.dfy`): the state machine.
  - `Next` gives the open window after one record; `Emitted` gives the writes one record causes.
  - `Feed` is the fold over the input and `Process` is the whole run.
  - `Aggregate` is the single-pass loop, proved to write exactly `Process`.
- `Reference` (`reference.dfy`): `Spec`, a declarative description of a run's output. There is one result per window, from the first record's window to the last record's. Window `k` reports the records whose timestamps fall in it. The main theorem is `ProcessMatchesSpec`.
- `Properties` (`properties.dfy`): consequences of the main theorem. It covers the number and starts of the windows, that consecutive starts are one period apart, and that every record is reported by the window that holds it. It also shows that counts add up to the number of records and describes the shape of an empty window.
- `Scenarios` (`scenarios.dfy`): the five test scenarios as lemmas over a symbolic base instant.

## Model

| member | source | states |
|---|---|---|
| Engine.Aggregate | src/test/java/core/StatsGeneratorTest.java:28-46 | The pull loop reads records until the end-of-data sentinel, reads the column count once up front, and holds at most one open window. It writes exactly the results of the fold `Process`, in the same order. |
| Engine.ExpectedValueCount | src/test/java/core/StatsGeneratorTest.java:40-45 | The column count read up front is the first record's number of values, 0 without records. Every record has that many values exactly when all records have the same number of values. |
| Engine.Process | src/test/java/core/StatsGeneratorTest.java:56-132 | The whole run writes something exactly when there is at least one record. Its full contract is `Engine.ProcessEnds` and `Reference.ProcessMatchesSpec`. |
| Engine.Feed | src/test/java/core/StatsGeneratorTest.java:89-118 | From any state, the remaining run writes something exactly when a window is open or a record remains to be read. |
| Engine.Next | src/test/java/core/StatsGeneratorTest.java:74-86 | After reading a record, a window is always open, and it is the record's window. The column count is kept. |
| Engine.NextAccumulates | src/test/java/core/StatsGeneratorTest.java:74-86 | A record in the open window adds one to its count and its values and their squares to its column sums. A record in another window opens a fresh window that counts only that record and holds only its values. |
| Engine.Gaps | src/test/java/core/StatsGeneratorTest.java:103-104 | Gap results are written exactly when at least one window lies between the closed window and the record's window. |
| Engine.Emitted | src/test/java/core/StatsGeneratorTest.java:83-86 | Reading a record writes nothing exactly when no window is open or the record falls in the open window. Otherwise the first write is the open window, at its start. |
| Engine.Flush | src/test/java/core/StatsGeneratorTest.java:130-131 | At end of input the open window, if any, is the one result written. It keeps the window's start and count, with one mean and one variance per column. |
| Engine.GapsBetweenGridPoints | src/test/java/core/StatsGeneratorTest.java:101-106 | The gap results from one grid point up to, but excluding, the grid point `n` windows later are exactly `n` results, one per skipped window, at consecutive grid points. This holds for any `n`, not just one gap. |
| Engine.WriteGaps | src/test/java/core/StatsGeneratorTest.java:103-104 | The gap-writing loop writes one count-0 result per skipped window. Its writes equal the declarative gap sequence. |
| Engine.FeedEnds | src/test/java/core/StatsGeneratorTest.java:89-107 | The fold writes something exactly when a window is or will be open. Its first write is the open window, or the first record's window; its last write is the last record's window. |
| Engine.ProcessEnds | src/test/java/core/StatsGeneratorTest.java:109-132 | No input gives no write, and any input gives at least one. The first result starts at the first record's timestamp truncated to the period's unit; the last one is the window holding the last record. |
| Time.Truncate | src/test/java/core/StatsGeneratorTest.java:124-131 | Truncation gives the latest multiple of the unit at or before the timestamp: 10:01:10 truncates to 10:01:00 for minutes. |
| Time.GridOf | src/test/java/core/StatsGeneratorTest.java:120-131 | The grid starts at the first record's timestamp truncated to the unit, not to a multiple of the period. Windows are one period wide, and the first record lies in window 0. |
| Time.Index | src/test/java/core/StatsGeneratorTest.java:74-86 | Windows are half-open: window `k` holds the instants from `origin + k*len` up to but excluding `origin + (k+1)*len`. |
| Time.WindowStart | src/test/java/core/StatsGeneratorTest.java:101-106 | A record's window starts at a grid point at or before the record, less than one period before it. |
| Time.IndexUnique | src/test/java/core/StatsGeneratorTest.java:74-86 | An instant inside window `k`'s bounds has index `k`. So a record exactly one period after the first window's start opens window 1. |
| Time.IndexMonotone | src/test/java/core/StatsGeneratorTest.java:92-95 | A later timestamp never falls in an earlier window. |
| Statistics.AccOf | src/test/java/core/StatsGeneratorTest.java:58-68 | Folding a window's records into the accumulators gives the record count. Per column it gives the sum and the sum of squares of that column's values. |
| Statistics.Add | src/test/java/core/StatsGeneratorTest.java:56-68 | Folding a record into a window adds one to its count and, per column, the value to the sum and its square to the sum of squares. |
| Statistics.ColumnVariance | src/test/java/core/StatsGeneratorTest.java:83-86 | A column's variance is undefined exactly when the window is empty. A window with one record has variance 0.0, not NaN. |
| Statistics.ColumnVarianceOf | src/test/java/core/StatsGeneratorTest.java:67-68 | For any number of values, the running sums give the textbook sample variance: undefined with no value, 0.0 with one, and the Bessel-corrected value otherwise. |
| Statistics.Finalize | src/test/java/core/StatsGeneratorTest.java:67-68 | A finalized window keeps its start and count and has one mean and one variance per column. |
| Statistics.FinalizeMatchesReference | src/test/java/core/StatsGeneratorTest.java:67-68 | Finalizing the running sums of any window gives, per column, the textbook mean and the Bessel-corrected sample variance of the values. The statistics are undefined when the window is empty. |
| Statistics.ColumnVarianceIsSample | src/test/java/core/StatsGeneratorTest.java:85-86 | For two or more values, (sumSq - sum^2/n)/(n - 1) equals the sum of squared deviations from the mean divided by n - 1. |
| Statistics.SingleRecordWindow | src/test/java/core/StatsGeneratorTest.java:130-131 | A window with one record reports that record's values as its means and 0.0, not NaN, as every variance. |
| Statistics.Gap | src/test/java/core/StatsGeneratorTest.java:103-104 | A gap result has count 0 and an undefined mean and variance in every column. |
| Reference.GapIsEmptyWindow | src/test/java/core/StatsGeneratorTest.java:103-104 | A gap result is exactly what a window without records must report. |
| Reference.FeedMatchesSpec | src/test/java/core/StatsGeneratorTest.java:89-107 | From any open window and any sorted remainder, the fold writes one result per window, from the open one to the last record's. Each result has the statistics of the records in that window. |
| Reference.ProcessMatchesSpec | src/test/java/core/StatsGeneratorTest.java:56-132 | For time-ordered input a run writes exactly the declared results. There is one result per window from the first record's to the last record's, none missing, repeated or out of order. Each has the count, mean and sample variance of its records. |
| Properties.ProcessWindows | src/test/java/core/StatsGeneratorTest.java:101-106 | A non-empty run writes `Index(last) + 1` results. Result `k` starts `k` whole periods after the first record's truncated timestamp. |
| Properties.ProcessContiguous | src/test/java/core/StatsGeneratorTest.java:101-106 | Consecutive results start exactly one period apart, as in 0s, 5s, 10s. |
| Properties.RecordCovered | src/test/java/core/StatsGeneratorTest.java:74-86 | Every record is reported by a result whose half-open window contains its timestamp, and that result counts at least one record. |
| Properties.EmptyWindowShape | src/test/java/core/StatsGeneratorTest.java:101-106 | Every result has one mean and one variance per column of the first record. A result counts 0 exactly when no record falls in its window, and then every statistic is undefined; otherwise every statistic is defined. |
| Properties.CountConservation | src/test/java/core/StatsGeneratorTest.java:89-107 | No record is lost or counted twice: the counts of all results add up to the number of records read. |
| Scenarios.ThreeRecordsOneWindow | src/test/java/core/StatsGeneratorTest.java:56-69 | Records at +0s, +2s and +4s (5.5, 4.5, 6.5) with a 5-second period give exactly one result: start +0s, count 3, mean 5.5, variance 1.0. |
| Scenarios.TwoAdjacentWindows | src/test/java/core/StatsGeneratorTest.java:71-87 | Records at +0s, +5s and +7s give (+0s, 1, 5.5, 0.0) then (+5s, 2, 6.0, variance 4.5). |
| Scenarios.WindowsAroundAGap | src/test/java/core/StatsGeneratorTest.java:89-107 | Records at +0s, +10s and +14s give (+0s, 1, 5.5, 0.0), then the gap (+5s, 0, undefined, undefined), then (+10s, 2, 6.0, variance 4.5). |
| Scenarios.NoRecords | src/test/java/core/StatsGeneratorTest.java:109-118 | With no record, nothing is written. |
| Scenarios.SingleRecordMinutes | src/test/java/core/StatsGeneratorTest.java:120-132 | One record 10 seconds after a whole minute, with a 5-minute period, gives one result at that minute with count 1, mean 5.5 and variance 0.0. |

## Left out

- The reader and writer collaborators and the Mockito stubbing are not modelled. The reader is the input sequence, and its `null` end-of-data answer is the end of that sequence. The writer's calls are the output sequence, in call order.
- Calendar timestamps (`Timestamp.of`) and time zones are not modelled; timestamps are integer seconds. The scenarios use a symbolic base instant instead of 2016-10-10 10:10:00, and a symbolic whole minute instead of 10:01:00.
- `ParseException` from the reader is not modelled.
- IEEE-754 doubles, NaN and `sqrt` are not modelled. Statistics are exact reals, NaN is `None`, and the sample variance stands in for the sample standard deviation. The literal 2.1213203435596424 is not proved, only that its square, 4.5, is the variance.
- Statistics.ColumnVarianceOf: states the sample variance rather than the standard deviation the writer receives, because square roots are not modelled.
- Statistics.FinalizeMatchesReference: states the sample variance rather than the standard deviation the writer receives, because square roots are not modelled.
- Scenarios.TwoAdjacentWindows: states the variance 4.5 where the test checks the standard deviation 2.1213203435596424 (the square root of 4.5), because square roots are not modelled.
- Scenarios.WindowsAroundAGap: states the variance 4.5 where the test checks the standard deviation 2.1213203435596424, for the same reason.
- Scenarios.ThreeRecordsOneWindow: states the variance 1.0 where the test checks the standard deviation 1.0 (equal, as the square root of 1 is 1).
- Scenarios.SingleRecordMinutes: states the variance 0.0 where the test checks the standard deviation 0.0 (equal, as the square root of 0 is 0).
- Out-of-order input, a record whose column count differs from the first record's, and a non-positive period are preconditions (`Admissible`, `WellFormed`), not error paths. The tests never exercise them, and the engine's policy for them is not part of this model. `Process` itself needs only a positive period and uniform columns. Time order is needed for the window guarantees.
- Only 1-second and 60-second units are named; any positive unit length is allowed.
- The tests check writes without order (Mockito `verify`). The model fixes the order in which the writes happen, which is stronger than what the tests check.
- Memory use (one open window's accumulators at a time) is not stated as a property. It shows only in the shape of `Aggregate`'s state.
