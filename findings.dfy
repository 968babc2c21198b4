/** The leaving count of `addBatch` as the source writes it, and what it
    does to a window when a batch is longer than the window's target size. */
module Findings {
  import opened Aggregates
  import opened Sliding
  import opened StatsWindows
  import opened Symbols

  /** With a batch no longer than the window the source's slices are the
      corrected ones: the finding is confined to batches longer than T. */
  lemma AsWrittenAgreesWhenBatchFits(oldLen: nat, n: nat, T: nat)
    requires n <= T
    ensures PlanSlideAsWritten(oldLen, n, T) == PlanSlide(oldLen, n, T)
  {
  }

  /** With a batch longer than the window the source's leaving count
      exceeds the prevEff points the window holds, so its leaving slice
      runs past the old series into the batch: the first n − T batch
      points count as leaving although they never were in the window. */
  lemma AsWrittenOvershoots(oldLen: nat, n: nat, T: nat)
    requires n > T
    ensures var p := PlanSlideAsWritten(oldLen, n, T);
            LeavingCountAsWritten(p.prevEff, n, T) == p.prevEff + (n - T) > p.prevEff &&
            p.leavingEnd == oldLen + (n - T) > oldLen &&
            p.enteringStart == p.leavingEnd
  {
  }

  /** The tree, however, ends right even as written: the old window's
      points are removed first, which empties the tree, and removing the
      extra batch points from an empty tree changes nothing; what is then
      inserted is the last T points, which is the new window. */
  lemma AsWrittenTreeIsRight(series: seq<real>, oldLen: nat, T: nat)
    requires oldLen <= |series| && T >= 1 && |series| - oldLen > T
    ensures var p := PlanSlideAsWritten(oldLen, |series| - oldLen, T);
            InsertedAll(RemovedAll(TreeOf(Trailing(series[..oldLen], T)), series[p.leavingStart..p.leavingEnd]),
                        series[p.enteringStart..])
            == TreeOf(Trailing(series, T))
  {
    var p := PlanSlideAsWritten(oldLen, |series| - oldLen, T);
    AsWrittenSlicesWhenOvershooting(series, oldLen, T);
    RemovingMoreEmpties(Trailing(series[..oldLen], T), series[oldLen..p.leavingEnd], series[p.enteringStart..]);
  }

  /** With a batch longer than the window, the leaving slice as written is
      the whole old window followed by the first batch points, and the
      entering slice is the new window. */
  lemma AsWrittenSlicesWhenOvershooting(series: seq<real>, oldLen: nat, T: nat)
    requires oldLen <= |series| && T >= 1 && |series| - oldLen > T
    ensures var p := PlanSlideAsWritten(oldLen, |series| - oldLen, T);
            series[p.leavingStart..p.leavingEnd] == Trailing(series[..oldLen], T) + series[oldLen..p.leavingEnd] &&
            series[p.enteringStart..] == Trailing(series, T)
  {
    var p := PlanSlideAsWritten(oldLen, |series| - oldLen, T);
    AsWrittenOvershoots(oldLen, |series| - oldLen, T);
    TrailingIsSuffix(series[..oldLen], T);
    TrailingIsSuffix(series, T);
    assert Trailing(series[..oldLen], T) == series[p.leavingStart..oldLen];
    assert series[p.leavingStart..p.leavingEnd] == series[p.leavingStart..oldLen] + series[oldLen..p.leavingEnd];
    assert p.enteringStart == |series| - T;
  }

  /** Removing a window's points and then more from its tree leaves the
      empty tree, since removal of a missing value changes nothing; what
      is then inserted is all the tree holds. */
  lemma RemovingMoreEmpties(before: seq<real>, extra: seq<real>, entering: seq<real>)
    ensures InsertedAll(RemovedAll(TreeOf(before), before + extra), entering) == TreeOf(entering)
  {
    assert multiset(before) - multiset(before + extra) == multiset{};
    TreeOfModels(before);
    RemovedAllModels(TreeOf(before), multiset(before), before + extra);
    ModelsUnique(RemovedAll(TreeOf(before), before + extra), map[], multiset{});
  }

  /** With a batch that fits, the slices as written rebuild both windows,
      and the effective sizes are the windows' lengths. */
  lemma AsWrittenSlicesWhenBatchFits(series: seq<real>, oldLen: nat, T: nat)
    requires oldLen <= |series| && |series| - oldLen <= T
    ensures var p := PlanSlideAsWritten(oldLen, |series| - oldLen, T);
            Trailing(series[..oldLen], T) == series[p.leavingStart..p.leavingEnd] + Kept(series, oldLen, T) &&
            Trailing(series, T) == Kept(series, oldLen, T) + series[p.enteringStart..] &&
            |Trailing(series[..oldLen], T)| == p.prevEff && |Trailing(series, T)| == p.nextEff
  {
    AsWrittenAgreesWhenBatchFits(oldLen, |series| - oldLen, T);
    SlideWindow(series, oldLen, T);
    TrailingIsSuffix(series[..oldLen], T);
    TrailingIsSuffix(series, T);
  }

  /** With a batch that fits, the running values as written are the new
      window's mean, sum of squares and population variance. */
  lemma AsWrittenExactWhenBatchFits(series: seq<real>, oldLen: nat, T: nat)
    requires oldLen <= |series| && |series| > 0 && T >= 1 && |series| - oldLen <= T
    ensures var p := PlanSlideAsWritten(oldLen, |series| - oldLen, T);
            var before := Trailing(series[..oldLen], T);
            var w := Trailing(series, T);
            |w| > 0 &&
            RunningOf(if before == [] then 0.0 else Mean(before), SumSq(before), p.prevEff, p.nextEff,
                      series[p.leavingStart..p.leavingEnd], series[p.enteringStart..])
              == Running(Mean(w), SumSq(w), PopVariance(w))
  {
    var p := PlanSlideAsWritten(oldLen, |series| - oldLen, T);
    AsWrittenSlicesWhenBatchFits(series, oldLen, T);
    ExactFromSlices(Trailing(series[..oldLen], T), Trailing(series, T), series[p.leavingStart..p.leavingEnd],
                    Kept(series, oldLen, T), series[p.enteringStart..], p.prevEff, p.nextEff);
  }

  /** The running values over any slide whose slices rebuild both windows
      and whose sizes are the windows' own. */
  lemma ExactFromSlices(before: seq<real>, w: seq<real>, leaving: seq<real>, kept: seq<real>,
                        entering: seq<real>, prevEff: nat, nextEff: nat)
    requires before == leaving + kept && w == kept + entering && |w| > 0
    requires prevEff == |before| && nextEff == |w|
    ensures RunningOf(if before == [] then 0.0 else Mean(before), SumSq(before), prevEff, nextEff, leaving, entering)
         == Running(Mean(w), SumSq(w), PopVariance(w))
  {
    if before == [] {
      RunningOfSlide(0.0, SumSq(before), before, w, leaving, kept, entering);
    } else {
      MeanTimesLength(before);
      RunningOfSlide(Mean(before), SumSq(before), before, w, leaving, kept, entering);
    }
  }

  /** What the window loop publishes for the window of size T after the
      points of `series` past oldLen arrive, cutting the slices as written
      (lines 41-70, the leaving count uncapped), from a window in sync with
      the old points; the batch may be empty. When the batch fits the
      window these are the new window's mean, sum of squares and population
      variance; when it does not, they need not be
      (`OvershootCounterexample`). */
  function RunningAsWritten(series: seq<real>, oldLen: nat, T: nat): (r: Running)
    requires oldLen <= |series| && |series| > 0 && T >= 1
    ensures |series| - oldLen <= T ==>
              var w := Trailing(series, T);
              |w| > 0 && r == Running(Mean(w), SumSq(w), PopVariance(w))
  {
    var p := PlanSlideAsWritten(oldLen, |series| - oldLen, T);
    var before := Trailing(series[..oldLen], T);
    var prevAverage := if before == [] then 0.0 else Mean(before);
    var leaving := series[p.leavingStart..p.leavingEnd];
    var entering := series[p.enteringStart..];
    // Both branches compute the same values; the first only brings in
    // the lemma that makes them exact.
    if |series| - oldLen <= T then
      AsWrittenExactWhenBatchFits(series, oldLen, T);
      RunningOf(prevAverage, SumSq(before), p.prevEff, p.nextEff, leaving, entering)
    else
      RunningOf(prevAverage, SumSq(before), p.prevEff, p.nextEff, leaving, entering)
  }

  /** Sums over a sequence whose every point is c. */
  lemma {:induction false} ConstantSums(s: seq<real>, c: real)
    requires forall i :: 0 <= i < |s| ==> s[i] == c
    ensures Sum(s) == (|s| as real) * c
    ensures SumSq(s) == (|s| as real) * c * c
  {
    if s != [] {
      ConstantSums(s[..|s| - 1], c);
    }
  }

  /** The window of size 10 over eleven points of 1.0: the last ten,
      with average 1 and variance 0. */
  lemma WindowOfElevenOnes(series: seq<real>)
    requires |series| == 11 && forall i :: 0 <= i < |series| ==> series[i] == 1.0
    ensures var w := Trailing(series, 10);
            w == series[1..] && Mean(w) == 1.0 && PopVariance(w) == 0.0
  {
    TrailingIsSuffix(series, 10);
    ConstantSums(series[1..], 1.0);
  }

  /** The running values the source publishes for that window: one
      batch point leaves, ten enter. */
  lemma AsWrittenRunningOfElevenOnes(series: seq<real>)
    requires |series| == 11 && forall i :: 0 <= i < |series| ==> series[i] == 1.0
    ensures RunningAsWritten(series, 0, 10) == Running(0.9, 9.0, 0.09)
  {
    ConstantSums(series[1..], 1.0);
    ConstantSums(series[..1], 1.0);
    ElevenOnesRunning(series[..1], series[1..]);
    assert series[..0] == [];
    assert PlanSlideAsWritten(0, 11, 10) == Slide(0, 10, 0, 1, 1);
    assert series[0..1] == series[..1];
  }

  lemma ElevenOnesRunning(leaving: seq<real>, entering: seq<real>)
    requires Sum(leaving) == SumSq(leaving) == 1.0 && Sum(entering) == SumSq(entering) == 10.0
    ensures RunningOf(0.0, 0.0, 0, 10, leaving, entering) == Running(0.9, 9.0, 0.09)
  {
    assert RunningAverage(0.0, 0, 10, 10.0, 1.0) == 0.9;
  }

  /** The input that shows it: a new symbol whose first batch is eleven
      points of 1.0. The window of size 10 should hold the last ten of
      them, with average 1 and variance 0 (with the corrected count nothing
      leaves, see `CorrectedSlicesOfElevenOnes`); as written, one batch
      point is subtracted as leaving, so the window publishes average 0.9
      and variance 0.09. */
  lemma OvershootCounterexample(series: seq<real>)
    requires |series| == 11 && forall i :: 0 <= i < |series| ==> series[i] == 1.0
    ensures var w := Trailing(series, 10);
            w == series[1..] && Mean(w) == 1.0 && PopVariance(w) == 0.0
    ensures RunningAsWritten(series, 0, 10) == Running(0.9, 9.0, 0.09)
  {
    WindowOfElevenOnes(series);
    AsWrittenRunningOfElevenOnes(series);
  }

  /** With the corrected count nothing leaves and the last ten enter. */
  lemma CorrectedSlicesOfElevenOnes(series: seq<real>)
    requires |series| == 11
    ensures Leaving(series, 0, 10) == [] && Entering(series, 0, 10) == series[1..]
  {
  }
}
