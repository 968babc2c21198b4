# Rolling trading statistics, modelled in Dafny

The system keeps rolling statistics of the prices of trading symbols. Each
symbol has a series of prices and eight trailing windows, of target sizes
10, 100, …, 10^8. Each window publishes Min, Max, Last, Average and
(population) Variance, and keeps a running SumOfSquares. When a batch of
prices arrives, every window is updated incrementally: the points that
leave it are subtracted, the points that enter it are added, and a tree
of price multiplicities gives Min and Max. Nothing is recomputed from the
full history.

The model follows the package `tradinganalysis` and the earlier root
`engine.go`, layer by layer:

- `aggregates.dfy` (`Aggregates`): the sums `sumSlice` and
  `calcSumOfSquares`, written as loops proved against the recursive
  `Sum`/`SumSq`. It also has the from-scratch statistics the windows are
  measured against: mean, population variance, minimum and maximum.
- `stats_window.dfy` (`StatsWindows`): `Stats`, `Stats.Equal`, and the
  `StatsWindow` class.
  - The tree is a `map<real, nat>` from price to count, updated in place by
    `InsertToTreeMap`, `RemoveFromTreeMap` and their slice versions.
  - Pure functions `Inserted`/`Removed` specify those updates, and lemmas
    relate a tree to the multiset it holds.
- `sliding.dfy` (`Sliding`): the index arithmetic of `addBatch`.
  - It covers the effective sizes and the leaving and entering slices.
  - The central facts are that the old window is *leaving ++ kept* and the
    new one *kept ++ entering*, and that the running average, sum of
    squares and variance formulas give the statistics of the new window.
- `symbol_data.dfy` (`Symbols`): the `SymbolData` class.
  - Its validity invariant says that window T is *in sync* with the last
    min(T, |series|) points of the series: its tree holds exactly those
    points, its SumOfSquares is theirs, and its published `Stats` are their
    from-scratch minimum, maximum, last point, mean and population variance.
  - `AddBatch` keeps this invariant.
- `engine.dfy` (`Engine`): the registry `TradeAnalysisEngine`.
  - `AddBatch` creates a symbol's data lazily, with the check and the
    re-check, and applies the batch to that symbol only.
  - `GetStats` returns `ErrSymbolNotFound` for a symbol never seen.
- `legacy_engine.dfy` (`LegacyEngine`): the earlier revision. It has no
  tree, its Min and Max are never assigned, and its `GetStats` has no
  not-found path. It reuses the same window arithmetic, and its windows
  track `LegacySummary` of the trailing points.
- `findings.dfy` (`Findings`): the leaving count as written. It is proved
  to agree with the corrected one when a batch fits the window, and a
  counterexample shows where it does not (see Findings).
- `scenario.dfy` (`Scenario`): the MILK scenario of the repository's test,
  both as lemmas on the from-scratch statistics and as a method that
  drives the engine model.

Decimals are modelled as `real`, so every identity holds exactly. The model
follows the code, with one exception: `addBatch` caps no leaving count, and
for a batch longer than a window that count is wrong (see Findings). The
code as written is modelled in `Findings`; the `SymbolData` classes use the
capped count.

The code has no branch that skips an empty batch: with an empty series and
an empty batch, `addBatch` divides by a zero window size
(tradinganalysis/symboldata.go:61-62, engine.go:72). In the model, the
first batch of a symbol must therefore not be empty.

## Model

| member | source | states |
|---|---|---|
| Aggregates.SumSlice | tradinganalysis/engine.go:33-39 | the loop returns the sum of the slice, 0 for an empty slice (the same loop is at engine.go:99-105) |
| Aggregates.CalcSumOfSquares | tradinganalysis/engine.go:24-31 | the loop returns Σx² of the slice, which is never negative (the same loop is at engine.go:90-97) |
| Aggregates.SumAppend | tradinganalysis/engine.go:33-39 | the sum of a concatenation is the sum of the parts, which is what lets a window add and subtract slice sums |
| Aggregates.SumSqAppend | tradinganalysis/engine.go:24-31 | the same for sums of squares |
| Aggregates.SumSqNonNegative | tradinganalysis/engine.go:24-31 | a sum of squares is never negative |
| Aggregates.VarianceIsMeanSquaredDeviation | tradinganalysis/symboldata.go:70 | SumOfSquares/N − Average² equals Σ(x − mean)²/N, the population variance |
| Aggregates.VarianceNonNegative | tradinganalysis/symboldata.go:70 | that variance is never negative |
| Aggregates.SeqMinIsLeast | tradinganalysis/symboldata.go:72 | the minimum of a window is one of its points and no point is smaller |
| Aggregates.SeqMaxIsGreatest | tradinganalysis/symboldata.go:73 | the maximum is one of its points and no point is larger |
| Aggregates.MinIsUnique | tradinganalysis/symboldata.go:72 | any point no larger than all points is the minimum |
| Aggregates.MaxIsUnique | tradinganalysis/symboldata.go:73 | any point no smaller than all points is the maximum |
| Aggregates.MeanBetween | tradinganalysis/symboldata.go:57-63 | the average of a window lies between its minimum and maximum |
| Sliding.TrailingIsSuffix | tradinganalysis/symboldata.go:41-42 | a window of target size T holds the last min(T, \|series\|) points |
| Sliding.LeavingCountAsWritten | tradinganalysis/symboldata.go:46 | the count as written, max(0, prevEff + n − T): zero exactly when the batch fits beside the old window, and otherwise the amount by which prevEff + n exceeds T |
| Sliding.LeavingCount | tradinganalysis/symboldata.go:46 | the corrected leaving count never exceeds the prevEff points the window holds, and equals the count as written whenever the batch fits the window |
| Sliding.PlanSlide | tradinganalysis/symboldata.go:41-52 | prevEff = min(T, oldLen), nextEff = min(T, newLen); the leaving slice starts at oldLen − prevEff and ends within the old series; the entering slice is the last min(T, n) points; all bounds are in range |
| Sliding.PlanSlideAsWritten | tradinganalysis/symboldata.go:41-52 | the same bookkeeping with the uncapped leaving count: the same effective sizes and entering slice, all bounds in range, but the leaving end is only bounded by the new length |
| Sliding.PlanSlideShape | tradinganalysis/symboldata.go:44-52 | a batch that fits enters whole and the new window starts at the leaving end; a longer batch leaves nothing kept and fills the window |
| Sliding.SlideWindow | tradinganalysis/symboldata.go:44-52 | the old window is the leaving points followed by the kept points, the new window is the kept points followed by the entering ones |
| Sliding.BatchSlices | tradinganalysis/symboldata.go:41-52 | the source's index formulas, with the leaving count capped, are in range, cut exactly those slices, give windows of sizes prevEff and nextEff, and the new window ends with the last point |
| Sliding.ReplaceTotals | tradinganalysis/symboldata.go:57-68 | replacing leaving by entering points changes sum, sum of squares and multiset by exactly their difference |
| Sliding.SlideTotals | tradinganalysis/symboldata.go:57-68 | the sums of the new window are the old sums minus the leaving and plus the entering sums |
| Sliding.RunningAverageOfSlide | tradinganalysis/symboldata.go:57-63 | the running-average formula yields the mean of the new window, given the old average times prevEff is the old sum |
| Sliding.RunningAverageIsMean | tradinganalysis/symboldata.go:57-63 | the same, stated for leaving ++ kept and kept ++ entering windows |
| Sliding.RunningAverage | tradinganalysis/symboldata.go:59-63 | the running-average formula, the old average rescaled by prevEff/nextEff plus the net change over nextEff; it has no contract of its own, and `RunningAverageOfSlide` proves it yields the new window's mean |
| Sliding.RunningOf | tradinganalysis/symboldata.go:57-70 | the three running values a window publishes: that average, the old SumOfSquares minus the leaving and plus the entering squares, and SumOfSquares/nextEff − Average²; `RunningOfSlide` proves what they are |
| Sliding.RunningOfSlide | tradinganalysis/symboldata.go:57-70 | over a slide from leaving ++ kept to kept ++ entering, from an old average and sum of squares that are the old window's, the running values are the new window's mean, sum of squares and population variance |
| Sliding.AverageTimesSize | tradinganalysis/symboldata.go:59-60 | an average that is the window's mean (0 for an empty window) times its size is the window's sum |
| Sliding.TrailingLast | tradinganalysis/symboldata.go:76 | the last point of every window is the last point of the series |
| Sliding.WindowSizesAreTheEight | tradinganalysis/symboldata.go:17-20 | the window sizes are exactly 10, 100, …, 10^8 |
| StatsWindows.Equal | tradinganalysis/statswindow.go:16-22 | true exactly when the five fields are equal, so it is reflexive and symmetric |
| StatsWindows.ModelsUnique | tradinganalysis/statswindow.go:27 | two trees with positive counts holding the same multiset are the same tree |
| StatsWindows.ModelsKeys | tradinganalysis/statswindow.go:27 | the keys of such a tree are exactly the values it holds |
| StatsWindows.InsertedCounts | tradinganalysis/statswindow.go:36-43 | insertion raises the value's count by one (creating it at 1), leaves every other count, and keeps counts positive |
| StatsWindows.RemovedCounts | tradinganalysis/statswindow.go:51-60 | removal of a missing value changes nothing; otherwise it lowers that count by one, drops the key at zero, leaves every other count, and keeps counts positive |
| StatsWindows.InsertRemoveRoundTrip | tradinganalysis/statswindow.go:36-60 | inserting a value and removing it again restores the tree |
| StatsWindows.InsertedModels | tradinganalysis/statswindow.go:36-43 | insertion adds the value to the multiset the tree holds |
| StatsWindows.RemovedModels | tradinganalysis/statswindow.go:51-60 | removal subtracts it (multiset difference) |
| StatsWindows.InsertedAllModels | tradinganalysis/statswindow.go:45-49 | inserting a slice adds the slice's multiset |
| StatsWindows.RemovedAllModels | tradinganalysis/statswindow.go:62-66 | removing a slice subtracts the slice's multiset |
| StatsWindows.TreeOfModels | tradinganalysis/statswindow.go:45-49 | the tree built from a window's points holds exactly those points |
| StatsWindows.StatsWindow.constructor | tradinganalysis/statswindow.go:30-34 | a new window has zero statistics, zero sum of squares and an empty tree |
| StatsWindows.StatsWindow.InsertToTreeMap | tradinganalysis/statswindow.go:36-43 | the tree becomes `Inserted` of the old tree; the statistics are untouched |
| StatsWindows.StatsWindow.InsertSliceToTreeMap | tradinganalysis/statswindow.go:45-49 | the loop inserts the points in order |
| StatsWindows.StatsWindow.RemoveFromTreeMap | tradinganalysis/statswindow.go:51-60 | the tree becomes `Removed` of the old tree; the statistics are untouched |
| StatsWindows.StatsWindow.RemoveSliceFromTreeMap | tradinganalysis/statswindow.go:62-66 | the loop removes the points in order |
| StatsWindows.StatsWindow.TreeMin | tradinganalysis/symboldata.go:72 | a key of a non-empty tree no larger than any key |
| StatsWindows.StatsWindow.TreeMax | tradinganalysis/symboldata.go:73 | a key of a non-empty tree no smaller than any key |
| Symbols.DecComparator | tradinganalysis/symboldata.go:29-32 | −1, 0 or 1 exactly when a < b, a = b, a > b |
| Symbols.DecComparatorAntisymmetric | tradinganalysis/symboldata.go:29-32 | swapping the operands negates the result |
| Symbols.SummaryBounds | tradinganalysis/symboldata.go:72-79 | a non-empty window's Min and Max are among its points, Last and Average lie between them, and Variance is the mean squared deviation from Average, so it is never negative |
| Symbols.SlideTree | tradinganalysis/symboldata.go:54-55 | removing the leaving and inserting the entering points turns the tree of the old window into the tree of the new window |
| Symbols.TreeMinIsSeqMin | tradinganalysis/symboldata.go:72 | the smallest key of a window's tree is the window's minimum |
| Symbols.TreeMaxIsSeqMax | tradinganalysis/symboldata.go:73 | the largest key is the window's maximum |
| Symbols.SlideStats | tradinganalysis/symboldata.go:54-79 | a window in sync with the old window's points ends in sync with the new window's: tree, SumOfSquares, Min, Max, Last, Average, Variance |
| Symbols.SlideStatsWindow | tradinganalysis/symboldata.go:39-80 | one loop iteration: a window tracking the series before the batch tracks the series after it |
| Symbols.SymbolData.constructor | tradinganalysis/symboldata.go:15-26 | an empty series and one window per size 10 … 10^8, each with zero statistics and an empty tree |
| Symbols.SymbolData.SlideWindowOfSize | tradinganalysis/symboldata.go:39-80 | slides one window still to do and leaves the others as they were |
| Symbols.SymbolData.AddBatch | tradinganalysis/symboldata.go:34-81 | the series becomes old series ++ batch, and every window again tracks the last min(T, \|series\|) points |
| Engine.KeepsValid | tradinganalysis/engine.go:56-59 | symbol data none of whose objects an update touched stays valid over the same series |
| Engine.TradeAnalysisEngine.constructor | tradinganalysis/engine.go:17-22 | both maps start empty |
| Engine.TradeAnalysisEngine.Register | tradinganalysis/engine.go:43-54 | after the check and re-check the symbol is registered; existing entries, data and locks alike, are never replaced; every series is unchanged |
| Engine.TradeAnalysisEngine.AddSymbol | tradinganalysis/engine.go:49-52 | fresh data with an empty series and a lock are stored under the new symbol in both maps; nothing else changes |
| Engine.TradeAnalysisEngine.NewSymbol | tradinganalysis/engine.go:50-51 | adding fresh valid data under a new key keeps the registry valid and every series as it was |
| Engine.TradeAnalysisEngine.UpdateOfOneSymbol | tradinganalysis/engine.go:56-59 | after only one symbol's data changed validly, the registry is valid and every other series is as it was |
| Engine.TradeAnalysisEngine.AddBatch | tradinganalysis/engine.go:42-60 | the symbol is registered, its series becomes old series ++ batch, every other symbol keeps its data, lock and series, and both maps keep equal key sets |
| Engine.TradeAnalysisEngine.GetStats | tradinganalysis/engine.go:64-72 | zero Stats and `ErrSymbolNotFound` for an unknown symbol; otherwise no error and the from-scratch statistics of the last min(10^k, n) points; nothing changes |
| LegacyEngine.LegacyAgreesWithPackage | engine.go:83-86 | this revision's Last, Average and Variance equal the package's; its Min and Max stay zero and so differ from the true extremes whenever those are not zero |
| LegacyEngine.StatWindow.constructor | engine.go:107-114 | a new window has all six fields zero |
| LegacyEngine.SlideFields | engine.go:69-86 | fields equal to the old window's `LegacySummary` become the new window's |
| LegacyEngine.SlideStatWindow | engine.go:54-87 | one loop iteration: a window tracking the series before the batch tracks the series after it |
| LegacyEngine.SymbolData.constructor | engine.go:36-47 | an empty series and a zero-valued window per size 10 … 10^8 |
| LegacyEngine.SymbolData.SlideWindowOfSize | engine.go:54-87 | slides one window still to do and leaves the others as they were |
| LegacyEngine.SymbolData.AddBatch | engine.go:49-88 | the series becomes old series ++ batch, and every window again tracks the last min(T, \|series\|) points |
| LegacyEngine.KeepsValid | engine.go:130-133 | untouched symbol data stays valid over the same series |
| LegacyEngine.TradeAnalysisEngine.constructor | engine.go:16-21 | both maps start empty |
| LegacyEngine.TradeAnalysisEngine.Register | engine.go:117-128 | the symbol is registered after the check and re-check; existing entries are never replaced; every series is unchanged |
| LegacyEngine.TradeAnalysisEngine.AddSymbol | engine.go:123-126 | fresh data and a lock are stored under the new symbol; nothing else changes |
| LegacyEngine.TradeAnalysisEngine.NewSymbol | engine.go:124-125 | adding fresh valid data under a new key keeps the registry valid and every series as it was |
| LegacyEngine.TradeAnalysisEngine.UpdateOfOneSymbol | engine.go:130-133 | after only one symbol's data changed validly, the registry is valid and every other series is as it was |
| LegacyEngine.TradeAnalysisEngine.AddBatch | engine.go:116-134 | the symbol is registered, its series becomes old series ++ batch, and every other symbol keeps its data, lock and series |
| LegacyEngine.TradeAnalysisEngine.GetStats | engine.go:136-141 | for a registered symbol and 1 ≤ k ≤ 8, the six fields of the window over the last min(10^k, n) points |
| Findings.AsWrittenAgreesWhenBatchFits | tradinganalysis/symboldata.go:46-52 | when the batch is no longer than the window, the slices as written are the corrected ones |
| Findings.AsWrittenOvershoots | tradinganalysis/symboldata.go:46-48 | when the batch is longer than the window, the leaving count as written exceeds prevEff by n − T, and the leaving slice runs n − T points into the batch, up to where the entering slice starts |
| Findings.AsWrittenTreeIsRight | tradinganalysis/symboldata.go:54-55 | even so, the tree as written ends holding exactly the new window |
| Findings.AsWrittenSlicesWhenOvershooting | tradinganalysis/symboldata.go:41-52 | with a batch longer than the window, the leaving slice as written is the whole old window followed by the first batch points, and the entering slice is the new window |
| Findings.RemovingMoreEmpties | tradinganalysis/statswindow.go:51-66 | removing a window's points and then more from its tree leaves it empty, so what is inserted next is all the tree holds |
| Findings.AsWrittenSlicesWhenBatchFits | tradinganalysis/symboldata.go:41-52 | when the batch fits the window, the slices as written rebuild the old window as leaving ++ kept and the new one as kept ++ entering, with the effective sizes as lengths |
| Findings.ExactFromSlices | tradinganalysis/symboldata.go:57-70 | over any such slide, the running values from the old window's mean (0 when empty) and sum of squares are the new window's mean, sum of squares and population variance |
| Findings.AsWrittenExactWhenBatchFits | tradinganalysis/symboldata.go:41-70 | hence, when the batch fits, the running values as written are exact |
| Findings.RunningAsWritten | tradinganalysis/symboldata.go:41-70 | the per-window update as written, with the uncapped leaving count, from a window in sync with the old points; exact whenever the batch fits the window |
| Findings.WindowOfElevenOnes | tradinganalysis/symboldata.go:41-42 | for eleven prices of 1.0 the window of size 10 is the last ten, with mean 1 and variance 0 |
| Findings.CorrectedSlicesOfElevenOnes | tradinganalysis/symboldata.go:46-52 | with the corrected count nothing leaves and the last ten points enter |
| Findings.AsWrittenRunningOfElevenOnes | tradinganalysis/symboldata.go:57-70 | as written, the window publishes average 0.9, sum of squares 9 and variance 0.09 |
| Findings.OvershootCounterexample | tradinganalysis/symboldata.go:57-70 | the intended mean 1 and variance 0 next to the 0.9 and 0.09 the source computes |
| Scenario.FirstWindow | main_test.go:43-46 | after [10, 12, 11, 11.5, 13] window 10 has min 10, max 13, last 13, average 11.5, variance 1 |
| Scenario.SecondWindow | main_test.go:48-51 | after [15, 16, 16.5] it has min 10, max 16.5, last 16.5, average 13.125, variance 5.171875 |
| Scenario.ThirdWindow | main_test.go:53-56 | after [18, 19, 21, 20.5, 22, 22.5, 21.5] it has min 15, max 22.5, last 21.5, average 19.2, variance 6.56 |
| Scenario.AddBatchThenGetStats | main_test.go:43-44 | one step: the batch is appended and window 10's statistics are those of the last ten points |
| Scenario.MilkScenario | main_test.go:11-57 | the engine, fed the three batches, returns the three expected windows |

## Left out

- Locking (`rootLock` and the per-symbol `sync.RWMutex`) is not modelled: its point is concurrency, and the model is sequential. A lock is a unit value stored in `locksPerSymbol`, so that the two maps' equal key sets can be stated.
- The re-check in `AddBatch` is modelled, but with no concurrency it always agrees with the first check.
- The unsynchronised read of `symbolDataPerSymbol` in `GetStats` (tradinganalysis/engine.go:65) is a data race that a sequential model cannot express.
- Decimal rounding is not modelled: prices are exact reals. `Div` in the source rounds to a fixed precision, so the identities proved here hold for exact arithmetic only.
- The red-black balancing of the tree library and its cost are not modelled. The tree is a map from price to count, and Min and Max are found by a scan over its keys.
- `math.Pow10` and its float-to-int conversion are the exact constants 10^k.
- The iteration order of Go maps over `statWindowsPerSize` is a nondeterministic choice of the next size still to do. The windows are independent, so any order gives the same result.
- The ghost `symbol` and `targetSize` of a window, and the ghost `windows` and `Repr` sets, exist only to state which objects an update may change. The source keeps symbol and size only as map keys.
- `main.go` and `handlers.go` are not part of this model: HTTP routing, JSON and server start-up. Their only relevant limits are a batch of at most 10000 points and 1 ≤ k ≤ 8. The second becomes a precondition of `GetStats`; the first does not, because nothing in the core depends on it.
- Symbols.SymbolData.AddBatch: requires the series and the batch together to be non-empty. With no points at all the source divides by a zero window size (tradinganalysis/symboldata.go:61-62), and `Div` panics there.
- Engine.TradeAnalysisEngine.AddBatch: requires the same of the symbol's series and the batch, because it passes the batch to `SymbolData.AddBatch`.
- LegacyEngine.SymbolData.AddBatch: requires the same, because the earlier revision divides by the same zero window size (engine.go:72).
- LegacyEngine.TradeAnalysisEngine.AddBatch: requires the same, because it passes the batch to that method.
- The empty first batch is not listed as a finding. The source's `Div` panics on the zero divisor, and the model's exact reals have no panic to show; a precondition is how the model states that callers must avoid the case. The code gives no sign of what was intended instead (skip the batch, or reject it), so there is no corrected behaviour to model. The HTTP handlers accept an empty `values` list (main.go:30 checks only the upper bound), so the case is reachable.
- Engine.TradeAnalysisEngine.GetStats: requires 1 ≤ k ≤ 8 for a registered symbol, because the source would read a missing window.
- LegacyEngine.TradeAnalysisEngine.GetStats: requires a registered symbol, because the source takes the lock of a missing entry.
- Symbols.SymbolData.AddBatch and LegacyEngine.SymbolData.AddBatch use the corrected leaving count (see Findings). The source's own count is modelled in `Sliding.PlanSlideAsWritten` and `Findings`.
- Printing in the test and the `Print` helper commented out in `engine.go` are not modelled.

## Findings

| source | as written | input that shows it | evidently intended | confidence | as-written member | corrected member |
|---|---|---|---|---|---|---|
| tradinganalysis/symboldata.go:46 | the leaving count is max(0, prevEff + n − T); for a batch longer than the window it exceeds the prevEff points the window holds, so the first n − T batch points are subtracted from Average and SumOfSquares although they never were in the window | a new symbol whose first batch is eleven prices of 1.0: window 10 publishes average 0.9 and variance 0.09 instead of 1 and 0 | the count capped at prevEff: min(prevEff, max(0, prevEff + n − T)) | not executed | Findings.RunningAsWritten, Findings.OvershootCounterexample | Symbols.SlideStatsWindow |
| engine.go:61 | the same leaving count in the earlier revision | the same batch: Average 0.9 and Variance 0.09 in window 10 | the same capped count | not executed | Findings.AsWrittenOvershoots | LegacyEngine.SlideStatWindow |

The tree as written still ends correct (`Findings.AsWrittenTreeIsRight`): removing the extra batch points from an already empty tree does nothing. The HTTP layer accepts batches of up to 10000 points, which is more than the windows of size 10, 100 and 1000 hold, so the case is reachable.
