/** Per-symbol state (`SymbolData`): the full price series and one
    statistics window per target size 10^1 … 10^8, each kept up to date
    incrementally as batches arrive (`addBatch`). */
module Symbols {
  import opened Aggregates
  import opened Sliding
  import opened StatsWindows

  /** `DecComparator`: the three-way comparison that orders the tree. */
  function DecComparator(a: real, b: real): (r: int)
    ensures r == -1 || r == 0 || r == 1
    ensures r < 0 <==> a < b
    ensures r == 0 <==> a == b
    ensures r > 0 <==> a > b
  {
    if a < b then -1 else if a == b then 0 else 1
  }

  /** Swapping the operands flips the sign: the comparator is antisymmetric. */
  lemma DecComparatorAntisymmetric(a: real, b: real)
    ensures DecComparator(a, b) == -DecComparator(b, a)
  {
  }

  /** The statistics a window over the points w should publish, computed
      from scratch: zero for an empty window, otherwise its minimum,
      maximum, last point, mean and population variance. */
  function Summary(w: seq<real>): Stats
  {
    if w == [] then ZeroStats
    else Stats(SeqMin(w), SeqMax(w), w[|w| - 1], Mean(w), PopVariance(w))
  }

  /** What the published statistics of a non-empty window satisfy. */
  lemma {:induction false} SummaryBounds(w: seq<real>)
    requires |w| > 0
    ensures var st := Summary(w);
            st.min in w && st.max in w &&
            st.min <= st.last <= st.max &&
            st.min <= st.average <= st.max &&
            st.variance >= 0.0 &&
            st.variance == SqDev(w, st.average) / (|w| as real)
  {
    assert w[|w| - 1] in w;
    SeqMinIsLeast(w);
    SeqMaxIsGreatest(w);
    MeanBetween(w);
    VarianceNonNegative(w);
    VarianceIsMeanSquaredDeviation(w);
  }

  /** The window is in sync with the points it covers: its tree holds
      exactly those points, its running sum of squares is theirs, and it
      publishes their from-scratch statistics. */
  ghost predicate InSync(w: StatsWindow, points: seq<real>)
    reads w
  {
    w.pointsTreeMap == TreeOf(points) &&
    w.sumOfSquares == SumSq(points) &&
    w.stats == Summary(points)
  }

  /** The window of target size T is in sync with the last min(T, |series|)
      points of the series. */
  ghost predicate Tracks(w: StatsWindow, series: seq<real>, T: nat)
    reads w
  {
    T >= 1 && InSync(w, Trailing(series, T))
  }

  /** Sliding the tree: removing the leaving points and inserting the
      entering ones turns a tree of the old window into one of the new. */
  lemma {:induction false} SlideTree(t: Tree, before: seq<real>, after: seq<real>,
                                     leaving: seq<real>, kept: seq<real>, entering: seq<real>)
    requires before == leaving + kept && after == kept + entering
    requires WellFormed(t) && Models(t, multiset(before))
    ensures WellFormed(InsertedAll(RemovedAll(t, leaving), entering))
    ensures Models(InsertedAll(RemovedAll(t, leaving), entering), multiset(after))
  {
    RemovedAllModels(t, multiset(before), leaving);
    assert multiset(before) - multiset(leaving) == multiset(kept);
    InsertedAllModels(RemovedAll(t, leaving), multiset(kept), entering);
  }

  /** A tree holding a non-empty window has a key. */
  lemma ModelsNonEmpty(t: Tree, w: seq<real>)
    requires WellFormed(t) && Models(t, multiset(w)) && |w| > 0
    ensures |t| > 0
  {
    ModelsKeys(t, multiset(w), w[0]);
    assert w[0] in t.Keys;
  }

  /** The tree's smallest key is the window's minimum. */
  lemma TreeMinIsSeqMin(t: Tree, w: seq<real>, r: real)
    requires WellFormed(t) && Models(t, multiset(w)) && |w| > 0
    requires r in t && forall y :: y in t ==> r <= y
    ensures r == SeqMin(w)
  {
    ModelsKeys(t, multiset(w), r);
    forall x | x in w
      ensures r <= x
    {
      ModelsKeys(t, multiset(w), x);
    }
    MinIsUnique(w, r);
  }

  /** The tree's largest key is the window's maximum. */
  lemma TreeMaxIsSeqMax(t: Tree, w: seq<real>, r: real)
    requires WellFormed(t) && Models(t, multiset(w)) && |w| > 0
    requires r in t && forall y :: y in t ==> y <= r
    ensures r == SeqMax(w)
  {
    ModelsKeys(t, multiset(w), r);
    forall x | x in w
      ensures x <= r
    {
      ModelsKeys(t, multiset(w), x);
    }
    MaxIsUnique(w, r);
  }

  /** Lines 54-79 of `addBatch` for one window: the tree loses the leaving
      points and gains the entering ones, and the statistics follow by the
      running formulas. The old window (ghost `before`) is the leaving
      points followed by the kept ones, the new window (ghost `after`) the
      kept points followed by the entering ones; a window in sync with the
      old points is then in sync with the new ones. */
  method SlideStats(statsWindow: StatsWindow,
                    pricePointsLeavingWindow: seq<real>, pricePointsEnteringWindow: seq<real>,
                    prevWindowEffectiveSize: nat, nextWindowEffectiveSize: nat, lastPricePoint: real,
                    ghost before: seq<real>, ghost kept: seq<real>, ghost after: seq<real>)
    requires before == pricePointsLeavingWindow + kept && after == kept + pricePointsEnteringWindow
    requires |before| == prevWindowEffectiveSize && |after| == nextWindowEffectiveSize > 0
    requires lastPricePoint == after[|after| - 1]
    requires InSync(statsWindow, before)
    modifies statsWindow
    ensures InSync(statsWindow, after)
    ensures statsWindow.pointsTreeMap
         == InsertedAll(RemovedAll(old(statsWindow.pointsTreeMap), pricePointsLeavingWindow), pricePointsEnteringWindow)
  {
    TreeOfModels(before);
    SlideTree(statsWindow.pointsTreeMap, before, after, pricePointsLeavingWindow, kept, pricePointsEnteringWindow);
    statsWindow.RemoveSliceFromTreeMap(pricePointsLeavingWindow);
    statsWindow.InsertSliceToTreeMap(pricePointsEnteringWindow);

    var prevAverage := statsWindow.stats.average;
    var enteringSum := SumSlice(pricePointsEnteringWindow);
    var leavingSum := SumSlice(pricePointsLeavingWindow);
    var nextAverage := RunningAverage(prevAverage, prevWindowEffectiveSize, nextWindowEffectiveSize,
                                      enteringSum, leavingSum);

    var prevSumOfSquares := statsWindow.sumOfSquares;
    var sumOfSquaresLeaving := CalcSumOfSquares(pricePointsLeavingWindow);
    var sumOfSquaresEntering := CalcSumOfSquares(pricePointsEnteringWindow);
    var nextSumOfSquares := prevSumOfSquares - sumOfSquaresLeaving + sumOfSquaresEntering;

    var nextVariance := nextSumOfSquares / (nextWindowEffectiveSize as real) - nextAverage * nextAverage;
    AverageTimesSize(before, prevAverage, prevWindowEffectiveSize);
    RunningOfValues(prevAverage, prevSumOfSquares, prevWindowEffectiveSize, nextWindowEffectiveSize,
                    pricePointsLeavingWindow, pricePointsEnteringWindow, nextAverage, nextSumOfSquares);
    RunningOfSlide(prevAverage, prevSumOfSquares, before, after,
                   pricePointsLeavingWindow, kept, pricePointsEnteringWindow);

    TreeOfModels(after);
    ModelsUnique(statsWindow.pointsTreeMap, TreeOf(after), multiset(after));
    ModelsNonEmpty(statsWindow.pointsTreeMap, after);
    var nextMin := statsWindow.TreeMin();
    var nextMax := statsWindow.TreeMax();
    TreeMinIsSeqMin(statsWindow.pointsTreeMap, after, nextMin);
    TreeMaxIsSeqMax(statsWindow.pointsTreeMap, after, nextMax);

    statsWindow.stats := Stats(nextMin, nextMax, lastPricePoint, nextAverage, nextVariance);
    statsWindow.sumOfSquares := nextSumOfSquares;
  }

  /** One iteration of the window loop of `addBatch` (lines 41-79):
      pricePoints already holds the batch and previousPricePointsSize is
      its length before. The leaving and entering slices are cut as the
      source cuts them (the leaving count capped, see `LeavingCount`), and
      the window, in sync with the last points before the batch, ends in
      sync with the last points after it. */
  method SlideStatsWindow(statsWindow: StatsWindow, pricePoints: seq<real>,
                          previousPricePointsSize: nat, windowTargetSize: nat)
    requires previousPricePointsSize <= |pricePoints| && |pricePoints| > 0
    requires Tracks(statsWindow, pricePoints[..previousPricePointsSize], windowTargetSize)
    modifies statsWindow
    ensures Tracks(statsWindow, pricePoints, windowTargetSize)
  {
    var newLen := |pricePoints|;
    var batchLen := newLen - previousPricePointsSize;
    var prevWindowEffectiveSize := Min(windowTargetSize, previousPricePointsSize);
    var nextWindowEffectiveSize := Min(windowTargetSize, newLen);

    var prevWindowFirstIndex := newLen - prevWindowEffectiveSize - batchLen;
    var pricePointsLeavingWindowSize := LeavingCount(prevWindowEffectiveSize, batchLen, windowTargetSize);
    var pricePointsLeavingWindowLastIndex := prevWindowFirstIndex + pricePointsLeavingWindowSize;
    var pricePointsEnteringWindowSize := Min(windowTargetSize, batchLen);
    var pricePointsEnteringWindowFirstIndex := newLen - pricePointsEnteringWindowSize;
    BatchSlices(pricePoints, previousPricePointsSize, windowTargetSize,
                prevWindowEffectiveSize, nextWindowEffectiveSize, prevWindowFirstIndex,
                pricePointsLeavingWindowLastIndex, pricePointsEnteringWindowFirstIndex);
    var pricePointsLeavingWindow := pricePoints[prevWindowFirstIndex..pricePointsLeavingWindowLastIndex];
    var pricePointsEnteringWindow := pricePoints[pricePointsEnteringWindowFirstIndex..];

    SlideStats(statsWindow, pricePointsLeavingWindow, pricePointsEnteringWindow,
               prevWindowEffectiveSize, nextWindowEffectiveSize, pricePoints[newLen - 1],
               Trailing(pricePoints[..previousPricePointsSize], windowTargetSize),
               Kept(pricePoints, previousPricePointsSize, windowTargetSize),
               Trailing(pricePoints, windowTargetSize));
  }

  class SymbolData {
    /** The symbol whose series this is; the source keeps it only as the
        key under which the data is stored. */
    ghost const symbol: string
    /** Every price point received for the symbol, oldest first. */
    var pricePoints: seq<real>
    /** One window per target size; the map itself is never changed, only the windows. */
    const statWindowsPerSize: map<nat, StatsWindow>
    /** The windows of the map, as a set: what an update may change. */
    ghost const windows: set<StatsWindow>

    /** There is one window per size 10^1 … 10^8, stored under its own
        size and symbol (so the windows are distinct objects), and each
        tracks the trailing points of the series for its size. */
    ghost predicate Valid()
      reads this, windows
    {
      windows == statWindowsPerSize.Values && statWindowsPerSize.Keys == WindowSizes() &&
      (forall w :: w in windows ==> w.symbol == symbol) &&
      (forall T :: T in statWindowsPerSize ==> statWindowsPerSize[T].targetSize == T) &&
      forall T {:trigger Tracks(statWindowsPerSize[T], pricePoints, T)} :: T in statWindowsPerSize ==>
        Tracks(statWindowsPerSize[T], pricePoints, T)
    }

    /** `NewSymbolData`: an empty series and a fresh window with zero
        statistics and an empty tree per size. */
    constructor (ghost symbol: string)
      ensures Valid() && this.symbol == symbol && pricePoints == []
      ensures forall T :: T in statWindowsPerSize ==>
        statWindowsPerSize[T].stats == ZeroStats && statWindowsPerSize[T].sumOfSquares == 0.0 &&
        statWindowsPerSize[T].pointsTreeMap == map[]
      ensures fresh(windows)
    {
      var perSize: map<nat, StatsWindow> := map[];
      for i := 1 to WindowCount + 1
        invariant perSize.Keys == SizesBelow(i)
        invariant forall T :: T in perSize ==> perSize[T].symbol == symbol && perSize[T].targetSize == T
        invariant forall T :: T in perSize ==> fresh(perSize[T])
        invariant forall T :: T in perSize ==>
          perSize[T].stats == ZeroStats && perSize[T].sumOfSquares == 0.0 && perSize[T].pointsTreeMap == map[]
      {
        var window := new StatsWindow(symbol, Pow10(i));
        SizesBelowStep(i);
        perSize := perSize[Pow10(i) := window];
      }
      this.symbol := symbol;
      pricePoints := [];
      statWindowsPerSize := perSize;
      windows := perSize.Values;
      new;
      forall T | T in statWindowsPerSize
        ensures Tracks(statWindowsPerSize[T], pricePoints, T)
      {
        assert Trailing(pricePoints, T) == [];
      }
    }

    /** Part way through the window loop of `addBatch`: the windows whose
        size is still in `remaining` track the series as it was before
        the batch (its first oldLen points), the others the whole series. */
    ghost predicate SlidingOver(series: seq<real>, oldLen: nat, remaining: set<nat>)
      reads this, statWindowsPerSize.Values
    {
      oldLen <= |series| && remaining <= statWindowsPerSize.Keys &&
      (forall T :: T in statWindowsPerSize ==> statWindowsPerSize[T].targetSize == T) &&
      (forall T :: T in statWindowsPerSize && T !in remaining ==> Tracks(statWindowsPerSize[T], series, T)) &&
      (forall T :: T in remaining ==> Tracks(statWindowsPerSize[T], series[..oldLen], T))
    }

    /** The body of the window loop: slides the window of one size still
        to do and leaves every other window as it was. */
    method SlideWindowOfSize(series: seq<real>, oldLen: nat, remaining: set<nat>, windowTargetSize: nat)
      requires SlidingOver(series, oldLen, remaining) && windowTargetSize in remaining && |series| > 0
      modifies statWindowsPerSize[windowTargetSize]
      ensures SlidingOver(series, oldLen, remaining - {windowTargetSize})
    {
      var statsWindow := statWindowsPerSize[windowTargetSize];
      SlideStatsWindow(statsWindow, series, oldLen, windowTargetSize);
    }

    /** `addBatch`: appends the batch to the series, then slides every
        window over it (in the order the map yields its sizes). The first
        batch of a symbol must not be empty: with no points at all the
        source divides by a zero window size. */
    method AddBatch(newPricePoints: seq<real>)
      requires Valid()
      requires |pricePoints| + |newPricePoints| > 0
      modifies this, windows
      ensures Valid()
      ensures pricePoints == old(pricePoints) + newPricePoints
    {
      var previousPricePointsSize := |pricePoints|;
      pricePoints := pricePoints + newPricePoints;
      assert pricePoints[..previousPricePointsSize] == old(pricePoints);
      var remaining := statWindowsPerSize.Keys;
      while remaining != {}
        invariant pricePoints == old(pricePoints) + newPricePoints
        invariant SlidingOver(pricePoints, previousPricePointsSize, remaining)
        decreases remaining
      {
        HasSize(remaining);
        var windowTargetSize :| windowTargetSize in remaining;
        SlideWindowOfSize(pricePoints, previousPricePointsSize, remaining, windowTargetSize);
        remaining := remaining - {windowTargetSize};
      }
    }
  }
}
