/** The window arithmetic of `addBatch`, shared by both revisions of the
    engine: which points leave and which enter a window of target size T
    when a batch is appended, and how the running average and sum of
    squares follow the slide. Everything here is pure; the stateful
    windows that use it live in `Symbols` and `LegacyEngine`. */
module Sliding {
  import opened Aggregates

  /** 10^k. The windows are keyed by 10^1 … 10^8. */
  function Pow10(k: nat): (r: nat)
    ensures r >= 1
  {
    if k == 0 then 1 else 10 * Pow10(k - 1)
  }

  /** Number of windows per symbol (target sizes 10^1 … 10^8). */
  const WindowCount: nat := 8

  function Min(a: int, b: int): int
  {
    if a <= b then a else b
  }

  function Max(a: int, b: int): int
  {
    if a >= b then a else b
  }

  /** What a window of target size T holds: the series with its oldest
      points dropped one by one until at most T remain. */
  function Trailing(s: seq<real>, T: nat): seq<real>
  {
    if |s| <= T then s else Trailing(s[1..], T)
  }

  /** The window is the last min(T, |s|) points of the series. */
  lemma {:induction false} TrailingIsSuffix(s: seq<real>, T: nat)
    ensures |Trailing(s, T)| == Min(T, |s|)
    ensures Trailing(s, T) == s[|s| - Min(T, |s|)..]
  {
    if |s| > T {
      TrailingIsSuffix(s[1..], T);
      assert s[1..][|s| - 1 - Min(T, |s| - 1)..] == s[|s| - Min(T, |s|)..];
    }
  }

  /** Index bookkeeping for one window and one batch, in positions of the
      series after the batch was appended: the window's effective size
      before and after, the leaving slice [leavingStart, leavingEnd) and
      the entering slice [enteringStart, end). */
  datatype Slide = Slide(prevEff: nat, nextEff: nat, leavingStart: nat, leavingEnd: nat, enteringStart: nat)

  /** How many points leave, as the source computes it: prevEff + n − T,
      floored at 0. When n > T this is more than the prevEff points the
      window holds. */
  function LeavingCountAsWritten(prevEff: nat, n: nat, T: nat): (r: nat)
    ensures r == 0 <==> prevEff + n <= T
    ensures r > 0 ==> prevEff + n == T + r
  {
    Max(0, prevEff + n - T)
  }

  /** How many points leave, capped at the prevEff points the window holds. */
  function LeavingCount(prevEff: nat, n: nat, T: nat): (r: nat)
    ensures r <= prevEff
    ensures n <= T ==> r == LeavingCountAsWritten(prevEff, n, T)
  {
    Min(prevEff, Max(0, prevEff + n - T))
  }

  /** The slices of lines 41-52 of `addBatch`, for a series of oldLen
      points to which n points are appended, with the leaving count capped. */
  function PlanSlide(oldLen: nat, n: nat, T: nat): (p: Slide)
    ensures p.prevEff == Min(T, oldLen) && p.nextEff == Min(T, oldLen + n)
    ensures p.leavingStart == oldLen - p.prevEff
    ensures p.leavingStart <= p.leavingEnd <= oldLen <= p.enteringStart <= oldLen + n
    ensures oldLen + n - p.enteringStart == Min(T, n)
  {
    var newLen := oldLen + n;
    var prevEff := Min(T, oldLen);
    var nextEff := Min(T, newLen);
    var firstIndex := newLen - prevEff - n;
    Slide(prevEff, nextEff, firstIndex, firstIndex + LeavingCount(prevEff, n, T), newLen - Min(T, n))
  }

  /** The same bookkeeping exactly as written in the source, leaving count uncapped. */
  function PlanSlideAsWritten(oldLen: nat, n: nat, T: nat): (p: Slide)
    ensures p.prevEff == Min(T, oldLen) && p.nextEff == Min(T, oldLen + n)
    ensures p.leavingStart == oldLen - p.prevEff
    ensures p.leavingStart <= p.leavingEnd <= oldLen + n
    ensures oldLen <= p.enteringStart <= oldLen + n && oldLen + n - p.enteringStart == Min(T, n)
  {
    var newLen := oldLen + n;
    var prevEff := Min(T, oldLen);
    var nextEff := Min(T, newLen);
    var firstIndex := newLen - prevEff - n;
    Slide(prevEff, nextEff, firstIndex, firstIndex + LeavingCountAsWritten(prevEff, n, T), newLen - Min(T, n))
  }

  /** Where the kept points and the entering slice sit: when the batch
      fits the window (n ≤ T) the whole batch enters and the new window
      starts at leavingEnd; otherwise nothing is kept and the entering
      slice is the whole new window. */
  lemma PlanSlideShape(oldLen: nat, n: nat, T: nat)
    ensures n <= T ==> PlanSlide(oldLen, n, T).enteringStart == oldLen &&
                       PlanSlide(oldLen, n, T).leavingEnd == oldLen + n - PlanSlide(oldLen, n, T).nextEff
    ensures n > T ==> PlanSlide(oldLen, n, T).leavingEnd == oldLen &&
                      PlanSlide(oldLen, n, T).enteringStart == oldLen + n - PlanSlide(oldLen, n, T).nextEff
  {
  }

  /** The points that leave the window when `series` (its first oldLen
      points being the series before the batch) is the series after the batch. */
  function Leaving(series: seq<real>, oldLen: nat, T: nat): seq<real>
    requires oldLen <= |series|
  {
    var p := PlanSlide(oldLen, |series| - oldLen, T);
    series[p.leavingStart..p.leavingEnd]
  }

  /** The points of the old window that stay in it. */
  function Kept(series: seq<real>, oldLen: nat, T: nat): seq<real>
    requires oldLen <= |series|
  {
    var p := PlanSlide(oldLen, |series| - oldLen, T);
    series[p.leavingEnd..oldLen]
  }

  /** The points that enter the window: the last min(T, n) batch points. */
  function Entering(series: seq<real>, oldLen: nat, T: nat): seq<real>
    requires oldLen <= |series|
  {
    var p := PlanSlide(oldLen, |series| - oldLen, T);
    series[p.enteringStart..]
  }

  lemma Adjacent(s: seq<real>, i: nat, j: nat, k: nat)
    requires i <= j <= k <= |s|
    ensures s[i..j] + s[j..k] == s[i..k]
  {
  }

  lemma SuffixOfPrefix(s: seq<real>, n: nat, k: nat)
    requires k <= n <= |s|
    ensures s[..n][k..] == s[k..n]
  {
  }

  /** The old window is the leaving points followed by the kept ones. */
  lemma {:induction false} SlideWindowBefore(series: seq<real>, oldLen: nat, T: nat)
    requires oldLen <= |series|
    ensures Trailing(series[..oldLen], T) == Leaving(series, oldLen, T) + Kept(series, oldLen, T)
  {
    var p := PlanSlide(oldLen, |series| - oldLen, T);
    TrailingIsSuffix(series[..oldLen], T);
    SuffixOfPrefix(series, oldLen, p.leavingStart);
    Adjacent(series, p.leavingStart, p.leavingEnd, oldLen);
  }

  lemma SuffixSplit(s: seq<real>, start: nat, mid: nat, kept: seq<real>, entering: seq<real>)
    requires start <= mid <= |s| && kept == s[start..mid] && entering == s[mid..]
    ensures s[start..] == kept + entering
  {
  }

  /** The new window is the kept points followed by the entering ones. */
  lemma {:induction false} SlideWindowAfter(series: seq<real>, oldLen: nat, T: nat)
    requires oldLen <= |series|
    ensures Trailing(series, T) == Kept(series, oldLen, T) + Entering(series, oldLen, T)
  {
    TrailingIsSuffix(series, T);
    PlanSlideShape(oldLen, |series| - oldLen, T);
    if |series| - oldLen <= T {
      SuffixSplit(series, |series| - Min(T, |series|), oldLen,
                  Kept(series, oldLen, T), Entering(series, oldLen, T));
    } else {
      SuffixSplit(series, |series| - Min(T, |series|), |series| - Min(T, |series|),
                  Kept(series, oldLen, T), Entering(series, oldLen, T));
    }
  }

  /** The central slide lemma: the old window is the leaving points
      followed by the kept ones, and the new window is the kept points
      followed by the entering ones. */
  lemma SlideWindow(series: seq<real>, oldLen: nat, T: nat)
    requires oldLen <= |series|
    ensures Trailing(series[..oldLen], T) == Leaving(series, oldLen, T) + Kept(series, oldLen, T)
    ensures Trailing(series, T) == Kept(series, oldLen, T) + Entering(series, oldLen, T)
  {
    SlideWindowBefore(series, oldLen, T);
    SlideWindowAfter(series, oldLen, T);
  }

  /** The slices as `addBatch` cuts them, from indices computed the way
      lines 41-52 compute them (leaving count capped): all bounds are in
      range, the old window is the leaving slice followed by the kept
      points, the new window is the kept points followed by the entering
      slice, the windows have the effective sizes, and the new window ends
      with the last point of the series. */
  lemma {:induction false} BatchSlices(series: seq<real>, oldLen: nat, T: nat,
                                       prevEff: int, nextEff: int, firstIndex: int,
                                       leavingEnd: int, enteringStart: int)
    requires oldLen <= |series| && T >= 1
    requires prevEff == Min(T, oldLen) && nextEff == Min(T, |series|)
    requires firstIndex == |series| - prevEff - (|series| - oldLen)
    requires leavingEnd == firstIndex + LeavingCount(prevEff, |series| - oldLen, T)
    requires enteringStart == |series| - Min(T, |series| - oldLen)
    ensures 0 <= firstIndex <= leavingEnd <= oldLen <= enteringStart <= |series|
    ensures Trailing(series[..oldLen], T) == series[firstIndex..leavingEnd] + Kept(series, oldLen, T)
    ensures Trailing(series, T) == Kept(series, oldLen, T) + series[enteringStart..]
    ensures |Trailing(series[..oldLen], T)| == prevEff && |Trailing(series, T)| == nextEff
    ensures |series| > 0 ==> nextEff > 0 && Trailing(series, T)[nextEff - 1] == series[|series| - 1]
  {
    var p := PlanSlide(oldLen, |series| - oldLen, T);
    assert p.leavingStart == firstIndex && p.leavingEnd == leavingEnd && p.enteringStart == enteringStart;
    SlideWindow(series, oldLen, T);
    TrailingIsSuffix(series[..oldLen], T);
    TrailingIsSuffix(series, T);
  }

  /** Replacing a leading part l by a trailing part e, around kept points k. */
  lemma {:induction false} ReplaceTotals(before: seq<real>, after: seq<real>,
                                         l: seq<real>, k: seq<real>, e: seq<real>)
    requires before == l + k && after == k + e
    ensures Sum(after) == Sum(before) - Sum(l) + Sum(e)
    ensures SumSq(after) == SumSq(before) - SumSq(l) + SumSq(e)
    ensures multiset(after) == multiset(before) - multiset(l) + multiset(e)
  {
    SumAppend(l, k);
    SumAppend(k, e);
    SumSqAppend(l, k);
    SumSqAppend(k, e);
    assert multiset(l + k) == multiset(l) + multiset(k);
    assert multiset(k + e) == multiset(k) + multiset(e);
  }

  /** The new window's sum, sum of squares and multiset follow from the old
      window's by subtracting the leaving points and adding the entering ones. */
  lemma {:induction false} SlideTotals(series: seq<real>, oldLen: nat, T: nat)
    requires oldLen <= |series|
    ensures Sum(Trailing(series, T))
         == Sum(Trailing(series[..oldLen], T)) - Sum(Leaving(series, oldLen, T)) + Sum(Entering(series, oldLen, T))
    ensures SumSq(Trailing(series, T))
         == SumSq(Trailing(series[..oldLen], T)) - SumSq(Leaving(series, oldLen, T)) + SumSq(Entering(series, oldLen, T))
    ensures multiset(Trailing(series, T))
         == multiset(Trailing(series[..oldLen], T)) - multiset(Leaving(series, oldLen, T))
            + multiset(Entering(series, oldLen, T))
  {
    SlideWindow(series, oldLen, T);
    ReplaceTotals(Trailing(series[..oldLen], T), Trailing(series, T),
                  Leaving(series, oldLen, T), Kept(series, oldLen, T), Entering(series, oldLen, T));
  }

  /** The running-average formula of `addBatch`: the old average rescaled
      to the new effective size plus the net change over the new size. */
  function RunningAverage(prevAverage: real, prevEff: nat, nextEff: nat,
                          enteringSum: real, leavingSum: real): real
    requires nextEff > 0
  {
    prevAverage * ((prevEff as real) / (nextEff as real)) + (enteringSum - leavingSum) / (nextEff as real)
  }

  /** a·(p/q) + (e − l)/q = s1/q when a·p = s0 and s1 = s0 − l + e. */
  lemma AverageAlgebra(a: real, p: real, q: real, s0: real, l: real, e: real, s1: real, q1: real)
    requires q > 0.0 && q1 == q
    requires a * p == s0
    requires s1 == s0 - l + e
    ensures a * (p / q) + (e - l) / q == s1 / q1
  {
    assert a * (p / q) == (a * p) / q;
    assert s0 / q + (e - l) / q == (s0 + (e - l)) / q;
  }

  /** The running average over any slide: if the old average times the
      old window's size is its sum (the old mean, or anything when the old
      window is empty) and the new window's sum is the old one minus the
      leaving and plus the entering points, the formula yields the new mean. */
  lemma {:induction false} RunningAverageOfSlide(prevAverage: real, prevEff: nat, nextEff: nat,
                                                 oldWindow: seq<real>, newWindow: seq<real>,
                                                 leaving: seq<real>, entering: seq<real>)
    requires |oldWindow| == prevEff && |newWindow| == nextEff > 0
    requires prevAverage * (|oldWindow| as real) == Sum(oldWindow)
    requires Sum(newWindow) == Sum(oldWindow) - Sum(leaving) + Sum(entering)
    ensures RunningAverage(prevAverage, prevEff, nextEff, Sum(entering), Sum(leaving)) == Mean(newWindow)
  {
    AverageAlgebra(prevAverage, prevEff as real, nextEff as real, Sum(oldWindow), Sum(leaving),
                   Sum(entering), Sum(newWindow), |newWindow| as real);
  }

  /** The same for a slide given as its parts: the old window is the
      leaving points followed by the kept ones, the new window the kept
      points followed by the entering ones (as `SlideWindow` shows for the
      slices `addBatch` computes). An average that was the mean of the old
      window becomes the mean of the new one. */
  lemma {:induction false} RunningAverageIsMean(prevAverage: real, before: seq<real>, after: seq<real>,
                                                leaving: seq<real>, kept: seq<real>, entering: seq<real>)
    requires before == leaving + kept && after == kept + entering && |after| > 0
    requires prevAverage * (|before| as real) == Sum(before)
    ensures RunningAverage(prevAverage, |before|, |after|, Sum(entering), Sum(leaving)) == Mean(after)
  {
    ReplaceTotals(before, after, leaving, kept, entering);
    RunningAverageOfSlide(prevAverage, |before|, |after|, before, after, leaving, entering);
  }

  /** The last point of a window is the last point of the series. */
  lemma TrailingLast(s: seq<real>, T: nat)
    requires |s| > 0 && T >= 1
    ensures |Trailing(s, T)| > 0 && Trailing(s, T)[|Trailing(s, T)| - 1] == s[|s| - 1]
  {
    TrailingIsSuffix(s, T);
  }

  /** The values the window loop publishes for one window, besides the
      tree's extremes and the last point. */
  datatype Running = Running(average: real, sumOfSquares: real, variance: real)

  /** The running formulas of `addBatch` (lines 57-70) for given slices:
      the new average by `RunningAverage`, the sum of squares less the
      leaving and plus the entering squares, and the variance as the mean
      square less the squared average. Whatever the slices, the new average
      times the new size is the old average times the old size, less the
      leaving and plus the entering sum. */
  function RunningOf(prevAverage: real, prevSumOfSquares: real, prevEff: nat, nextEff: nat,
                     leaving: seq<real>, entering: seq<real>): Running
    requires nextEff > 0
  {
    var average := RunningAverage(prevAverage, prevEff, nextEff, Sum(entering), Sum(leaving));
    var sumOfSquares := prevSumOfSquares - SumSq(leaving) + SumSq(entering);
    Running(average, sumOfSquares, sumOfSquares / (nextEff as real) - average * average)
  }

  /** The running formulas are exact over a slide: when the old window is
      the leaving points followed by the kept ones, the new window the kept
      points followed by the entering ones, and the old average and sum of
      squares are those of the old window (for an empty old window any
      average will do, since it is scaled by a size of zero), the formulas give the new window's
      mean, sum of squares and population variance. */
  lemma RunningOfSlide(prevAverage: real, prevSumOfSquares: real, before: seq<real>, after: seq<real>,
                       leaving: seq<real>, kept: seq<real>, entering: seq<real>)
    requires before == leaving + kept && after == kept + entering && |after| > 0
    requires prevAverage * (|before| as real) == Sum(before) && prevSumOfSquares == SumSq(before)
    ensures RunningOf(prevAverage, prevSumOfSquares, |before|, |after|, leaving, entering)
         == Running(Mean(after), SumSq(after), PopVariance(after))
  {
    var average := RunningAverage(prevAverage, |before|, |after|, Sum(entering), Sum(leaving));
    var sumOfSquares := prevSumOfSquares - SumSq(leaving) + SumSq(entering);
    RunningOfValues(prevAverage, prevSumOfSquares, |before|, |after|, leaving, entering, average, sumOfSquares);
    assert average == Mean(after) by {
      RunningAverageIsMean(prevAverage, before, after, leaving, kept, entering);
    }
    assert sumOfSquares == SumSq(after) by {
      ReplaceTotals(before, after, leaving, kept, entering);
    }
    MeanSquareLessSquaredMean(after, average, sumOfSquares);
  }

  /** The three values `RunningOf` yields, given its average and sum of squares. */
  lemma RunningOfValues(prevAverage: real, prevSumOfSquares: real, prevEff: nat, nextEff: nat,
                        leaving: seq<real>, entering: seq<real>, average: real, sumOfSquares: real)
    requires nextEff > 0
    requires average == RunningAverage(prevAverage, prevEff, nextEff, Sum(entering), Sum(leaving))
    requires sumOfSquares == prevSumOfSquares - SumSq(leaving) + SumSq(entering)
    ensures RunningOf(prevAverage, prevSumOfSquares, prevEff, nextEff, leaving, entering)
         == Running(average, sumOfSquares, sumOfSquares / (nextEff as real) - average * average)
  {
  }

  /** The variance formula, fed a window's mean and sum of squares, is its
      population variance. */
  lemma MeanSquareLessSquaredMean(w: seq<real>, average: real, sumOfSquares: real)
    requires |w| > 0 && average == Mean(w) && sumOfSquares == SumSq(w)
    ensures sumOfSquares / (|w| as real) - average * average == PopVariance(w)
  {
  }

  /** The old average times the old window's size is its sum: the mean
      of a non-empty window, and zero times zero for an empty one. */
  lemma AverageTimesSize(w: seq<real>, average: real, size: nat)
    requires size == |w| && (w != [] ==> average == Mean(w))
    ensures average * (size as real) == Sum(w)
  {
    if w != [] {
      MeanTimesLength(w);
    }
  }

  /** The sizes 10^1 … 10^(i-1). */
  ghost function SizesBelow(i: nat): set<nat>
  {
    set j | 1 <= j < i :: Pow10(j)
  }

  /** The target sizes of a symbol's windows: 10^1 … 10^8. */
  ghost function WindowSizes(): set<nat>
  {
    SizesBelow(WindowCount + 1)
  }

  lemma SizesBelowStep(i: nat)
    requires i >= 1
    ensures SizesBelow(i + 1) == SizesBelow(i) + {Pow10(i)}
  {
    forall x | x in SizesBelow(i + 1)
      ensures x in SizesBelow(i) + {Pow10(i)}
    {
      var j :| 1 <= j < i + 1 && x == Pow10(j);
      if j < i {
        assert x in SizesBelow(i);
      }
    }
  }

  /** The window sizes are exactly the eight keys 10, 100, …, 10^8. */
  lemma WindowSizesAreTheEight()
    ensures WindowSizes() == {10, 100, 1000, 10000, 100000, 1000000, 10000000, 100000000}
  {
    assert SizesBelow(1) == {};
    SizesBelowStep(1);
    assert SizesBelow(2) == {10};
    SizesBelowStep(2);
    assert SizesBelow(3) == {10, 100};
    SizesBelowStep(3);
    assert SizesBelow(4) == {10, 100, 1000};
    SizesBelowStep(4);
    assert SizesBelow(5) == {10, 100, 1000, 10000};
    SizesBelowStep(5);
    assert SizesBelow(6) == {10, 100, 1000, 10000, 100000};
    SizesBelowStep(6);
    assert SizesBelow(7) == {10, 100, 1000, 10000, 100000, 1000000};
    SizesBelowStep(7);
    assert SizesBelow(8) == {10, 100, 1000, 10000, 100000, 1000000, 10000000};
    SizesBelowStep(8);
  }

  /** A non-empty set of window sizes has a member to pick. */
  lemma HasSize(s: set<nat>)
    requires s != {}
    ensures exists T :: T in s
  {
    if forall T :: T !in s {
      assert false;
    }
  }
}
