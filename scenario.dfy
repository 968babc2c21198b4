/** The engine's own acceptance scenario: three batches of MILK prices,
    and after each the statistics of the window of size 10. */
module Scenario {
  import opened Aggregates
  import opened Sliding
  import opened StatsWindows
  import opened Symbols
  import opened Engine

  const Batch1: seq<real> := [10.0, 12.0, 11.0, 11.5, 13.0]
  const Batch2: seq<real> := [15.0, 16.0, 16.5]
  const Batch3: seq<real> := [18.0, 19.0, 21.0, 20.5, 22.0, 22.5, 21.5]

  /** One more point of a prefix adds itself to both sums. */
  lemma PrefixStep(s: seq<real>, k: nat)
    requires 0 < k <= |s|
    ensures Sum(s[..k]) == Sum(s[..k - 1]) + s[k - 1]
    ensures SumSq(s[..k]) == SumSq(s[..k - 1]) + s[k - 1] * s[k - 1]
  {
    assert s[..k][..k - 1] == s[..k - 1];
  }

  /** The statistics of a window from its extremes and its two sums. */
  lemma SummaryFrom(w: seq<real>, lo: real, hi: real, sum: real, sumOfSquares: real)
    requires |w| > 0
    requires lo in w && hi in w && forall x :: x in w ==> lo <= x <= hi
    requires Sum(w) == sum && SumSq(w) == sumOfSquares
    ensures var n := |w| as real;
            Summary(w) == Stats(lo, hi, w[|w| - 1], sum / n, sumOfSquares / n - (sum / n) * (sum / n))
  {
    MinIsUnique(w, lo);
    MaxIsUnique(w, hi);
  }

  /** After the first batch the window holds all five points. */
  lemma FirstWindow()
    ensures Summary(Trailing(Batch1, 10)) == Stats(10.0, 13.0, 13.0, 11.5, 1.0)
  {
    var w := Batch1;
    SumsOfFive(w);
    SummaryFrom(w, 10.0, 13.0, 57.5, 666.25);
  }

  /** After the second batch it holds all eight. */
  lemma SecondWindow()
    ensures Summary(Trailing(Batch1 + Batch2, 10)) == Stats(10.0, 16.5, 16.5, 13.125, 5.171875)
  {
    var w := Batch1 + Batch2;
    assert w == [10.0, 12.0, 11.0, 11.5, 13.0, 15.0, 16.0, 16.5];
    SumsOfSecond(w);
    SummaryFrom(w, 10.0, 16.5, 105.0, 1419.5);
  }

  lemma SumsOfSecond(w: seq<real>)
    requires w == [10.0, 12.0, 11.0, 11.5, 13.0, 15.0, 16.0, 16.5]
    ensures Sum(w) == 105.0 && SumSq(w) == 1419.5
  {
    assert w == w[..5] + w[5..];
    SumAppend(w[..5], w[5..]);
    SumSqAppend(w[..5], w[5..]);
    SumsOfFive(w[..5]);
    SumsOfThree(w[5..]);
  }

  /** After the third batch it holds the last ten of fifteen. */
  lemma ThirdWindow()
    ensures Summary(Trailing(Batch1 + Batch2 + Batch3, 10)) == Stats(15.0, 22.5, 21.5, 19.2, 6.56)
  {
    var series := Batch1 + Batch2 + Batch3;
    TrailingIsSuffix(series, 10);
    var w := Trailing(series, 10);
    assert w == [15.0, 16.0, 16.5, 18.0, 19.0, 21.0, 20.5, 22.0, 22.5, 21.5];
    SumsOfThird(w);
    SummaryFrom(w, 15.0, 22.5, 192.0, 3752.0);
  }

  lemma SumsOfThird(w: seq<real>)
    requires w == [15.0, 16.0, 16.5, 18.0, 19.0, 21.0, 20.5, 22.0, 22.5, 21.5]
    ensures Sum(w) == 192.0 && SumSq(w) == 3752.0
  {
    assert w == w[..5] + w[5..];
    SumAppend(w[..5], w[5..]);
    SumSqAppend(w[..5], w[5..]);
    SumsOfFive(w[..5]);
    SumsOfFive(w[5..]);
  }

  /** The scenario itself, as a method that drives the engine model:
      three batches for MILK, and after each the window of size 10^1
      publishes the expected statistics. */
  method MilkScenario() returns (window1: Stats, window2: Stats, window3: Stats)
    ensures Equal(window1, Stats(10.0, 13.0, 13.0, 11.5, 1.0))
    ensures Equal(window2, Stats(10.0, 16.5, 16.5, 13.125, 5.171875))
    ensures Equal(window3, Stats(15.0, 22.5, 21.5, 19.2, 6.56))
  {
    var engine := new TradeAnalysisEngine();
    assert engine.Series("MILK") == [];
    window1 := AddBatchThenGetStats(engine, "MILK", Batch1);
    assert engine.Series("MILK") == Batch1;
    FirstWindow();
    window2 := AddBatchThenGetStats(engine, "MILK", Batch2);
    assert engine.Series("MILK") == Batch1 + Batch2;
    SecondWindow();
    window3 := AddBatchThenGetStats(engine, "MILK", Batch3);
    assert engine.Series("MILK") == Batch1 + Batch2 + Batch3;
    ThirdWindow();
  }

  /** One step of the scenario: a batch for the symbol, then the
      statistics of its window of size 10. */
  method AddBatchThenGetStats(engine: TradeAnalysisEngine, symbol: string, batch: seq<real>)
      returns (stats: Stats)
    requires engine.Valid() && |batch| > 0
    modifies engine, engine.Repr
    ensures engine.Valid() && fresh(engine.Repr - old(engine.Repr))
    ensures engine.Series(symbol) == old(engine.Series(symbol)) + batch
    ensures stats == Summary(Trailing(engine.Series(symbol), 10))
  {
    engine.AddBatch(symbol, batch);
    var err: Error;
    stats, err := engine.GetStats(symbol, 1);
  }

  /** The two sums of three points, written out. */
  lemma SumsOfThree(s: seq<real>)
    requires |s| == 3
    ensures Sum(s) == s[0] + s[1] + s[2]
    ensures SumSq(s) == s[0] * s[0] + s[1] * s[1] + s[2] * s[2]
  {
    assert s[..0] == [] && s[..3] == s;
    PrefixStep(s, 1); PrefixStep(s, 2); PrefixStep(s, 3);
  }

  /** The two sums of five points, written out. */
  lemma SumsOfFive(s: seq<real>)
    requires |s| == 5
    ensures Sum(s) == s[0] + s[1] + s[2] + s[3] + s[4]
    ensures SumSq(s) == s[0] * s[0] + s[1] * s[1] + s[2] * s[2] + s[3] * s[3] + s[4] * s[4]
  {
    assert s[..0] == [] && s[..5] == s;
    PrefixStep(s, 1); PrefixStep(s, 2); PrefixStep(s, 3); PrefixStep(s, 4); PrefixStep(s, 5);
  }
}
