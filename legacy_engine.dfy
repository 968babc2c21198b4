/** The earlier revision of the engine (the root `engine.go`): the same
    window arithmetic as the package, but without the value tree, so Min
    and Max are never computed; a window is a record of six fields updated
    in place, and `GetStats` has no not-found path. */
module LegacyEngine {
  import opened Aggregates
  import opened Sliding
  import Symbols
  import Engine

  /** The six fields of a `StatWindow`, as `GetStats` copies them out. */
  datatype Snapshot = Snapshot(min: real, max: real, last: real, average: real,
                               sumOfSquares: real, variance: real)

  const ZeroSnapshot := Snapshot(0.0, 0.0, 0.0, 0.0, 0.0, 0.0)

  /** What a window over the points w holds in this revision: nothing ever
      assigns Min and Max, so they keep their zero value; Last, Average,
      SumOfSquares and Variance are the last point, the mean, Σx² and the
      population variance, and all zero for an empty window. */
  function LegacySummary(w: seq<real>): Snapshot
  {
    if w == [] then ZeroSnapshot
    else Snapshot(0.0, 0.0, w[|w| - 1], Mean(w), SumSq(w), PopVariance(w))
  }

  /** The legacy fields agree with the package's statistics on Last,
      Average and Variance, carry the window's sum of squares, and have
      zero Min and Max, which differ from the true extremes whenever the
      window's smallest (largest) point is not zero. */
  lemma LegacyAgreesWithPackage(w: seq<real>)
    ensures LegacySummary(w).last == Symbols.Summary(w).last
    ensures LegacySummary(w).average == Symbols.Summary(w).average
    ensures LegacySummary(w).variance == Symbols.Summary(w).variance
    ensures LegacySummary(w).sumOfSquares == SumSq(w)
    ensures LegacySummary(w).min == 0.0 && LegacySummary(w).max == 0.0
    ensures w != [] && SeqMin(w) != 0.0 ==> LegacySummary(w).min != Symbols.Summary(w).min
    ensures w != [] && SeqMax(w) != 0.0 ==> LegacySummary(w).max != Symbols.Summary(w).max
  {
  }

  /** `StatWindow`: six decimal fields, updated in place by `addBatch`. */
  class StatWindow {
    var min: real
    var max: real
    var last: real
    var average: real
    var sumOfSquares: real
    var variance: real
    /** The symbol and the target size under which the window is stored;
        the source keeps them only as map keys. */
    ghost const symbol: string
    ghost const targetSize: nat

    /** The zero value `&StatWindow{}`. */
    constructor (ghost symbol: string, ghost targetSize: nat)
      ensures Fields() == ZeroSnapshot
      ensures this.symbol == symbol && this.targetSize == targetSize
    {
      min, max, last, average, sumOfSquares, variance := 0.0, 0.0, 0.0, 0.0, 0.0, 0.0;
      this.symbol := symbol;
      this.targetSize := targetSize;
    }

    /** A copy of the six fields. */
    function Fields(): Snapshot
      reads this
    {
      Snapshot(min, max, last, average, sumOfSquares, variance)
    }
  }

  /** The window of target size T holds the fields of the last
      min(T, |series|) points. */
  ghost predicate Tracks(w: StatWindow, series: seq<real>, T: nat)
    reads w
  {
    T >= 1 && w.Fields() == LegacySummary(Trailing(series, T))
  }

  /** Lines 69-86 of `addBatch` for one window: the running formulas
      update Average, SumOfSquares and Variance, and Last becomes the last
      point; Min and Max are not touched. The old window (ghost `before`)
      is the leaving points followed by the kept ones, the new window
      (ghost `after`) the kept points followed by the entering ones; a
      window holding the fields of the old points then holds those of the
      new ones. */
  method SlideFields(statWindow: StatWindow,
                     pricePointsLeavingWindow: seq<real>, pricePointsEnteringWindow: seq<real>,
                     prevWindowEffectiveSize: nat, nextWindowEffectiveSize: nat, lastPricePoint: real,
                     ghost before: seq<real>, ghost kept: seq<real>, ghost after: seq<real>)
    requires before == pricePointsLeavingWindow + kept && after == kept + pricePointsEnteringWindow
    requires |before| == prevWindowEffectiveSize && |after| == nextWindowEffectiveSize > 0
    requires lastPricePoint == after[|after| - 1]
    requires statWindow.Fields() == LegacySummary(before)
    modifies statWindow
    ensures statWindow.Fields() == LegacySummary(after)
  {
    var prevAverage := statWindow.average;
    var enteringSum := SumSlice(pricePointsEnteringWindow);
    var leavingSum := SumSlice(pricePointsLeavingWindow);
    var nextAverage := RunningAverage(prevAverage, prevWindowEffectiveSize, nextWindowEffectiveSize,
                                      enteringSum, leavingSum);

    var prevSumOfSquares := statWindow.sumOfSquares;
    var sumOfSquaresOfPointsLeavingWindow := CalcSumOfSquares(pricePointsLeavingWindow);
    var sumOfSquaresOfPointsEnteringWindow := CalcSumOfSquares(pricePointsEnteringWindow);
    var nextSumOfSquares := prevSumOfSquares - sumOfSquaresOfPointsLeavingWindow + sumOfSquaresOfPointsEnteringWindow;

    var nextVariance := nextSumOfSquares / (nextWindowEffectiveSize as real) - nextAverage * nextAverage;
    AverageTimesSize(before, prevAverage, prevWindowEffectiveSize);
    RunningOfValues(prevAverage, prevSumOfSquares, prevWindowEffectiveSize, nextWindowEffectiveSize,
                    pricePointsLeavingWindow, pricePointsEnteringWindow, nextAverage, nextSumOfSquares);
    RunningOfSlide(prevAverage, prevSumOfSquares, before, after,
                   pricePointsLeavingWindow, kept, pricePointsEnteringWindow);

    statWindow.last := lastPricePoint;
    statWindow.average := nextAverage;
    statWindow.sumOfSquares := nextSumOfSquares;
    statWindow.variance := nextVariance;
  }

  /** One iteration of the window loop of `addBatch` (lines 56-86):
      pricePoints already holds the batch and previousPricePointsSize is
      its length before. The slices are cut as in the package revision
      (the leaving count capped, see `LeavingCount`), and the window,
      holding the fields of the last points before the batch, ends
      holding those of the last points after it. */
  method SlideStatWindow(statWindow: StatWindow, pricePoints: seq<real>,
                         previousPricePointsSize: nat, windowTargetSize: nat)
    requires previousPricePointsSize <= |pricePoints| && |pricePoints| > 0
    requires Tracks(statWindow, pricePoints[..previousPricePointsSize], windowTargetSize)
    modifies statWindow
    ensures Tracks(statWindow, pricePoints, windowTargetSize)
  {
    var newLen := |pricePoints|;
    var batchLen := newLen - previousPricePointsSize;
    var prevWindowEffectiveSize := Min(windowTargetSize, previousPricePointsSize);
    var nextWindowEffectiveSize := Min(windowTargetSize, newLen);

    var prevWindowFirstIndex := newLen - prevWindowEffectiveSize - batchLen;
    var pricePointsLeavingWindowSize := LeavingCount(prevWindowEffectiveSize, batchLen, windowTargetSize);
    var pricePointsLeavingWindowLastIndex := prevWindowFirstIndex + pricePointsLeavingWindowSize;
    var pricePointsEnteringWindowSize := Min(windowTargetSize, batchLen);
    var pricePointsEnteringWindowFirstIndex := newLen - pricePointsEnteringWindowSize;
    BatchSlices(pricePoints, previousPricePointsSize, windowTargetSize,
                prevWindowEffectiveSize, nextWindowEffectiveSize, prevWindowFirstIndex,
                pricePointsLeavingWindowLastIndex, pricePointsEnteringWindowFirstIndex);
    var pricePointsLeavingWindow := pricePoints[prevWindowFirstIndex..pricePointsLeavingWindowLastIndex];
    var pricePointsEnteringWindow := pricePoints[pricePointsEnteringWindowFirstIndex..];

    SlideFields(statWindow, pricePointsLeavingWindow, pricePointsEnteringWindow,
                prevWindowEffectiveSize, nextWindowEffectiveSize, pricePoints[newLen - 1],
                Trailing(pricePoints[..previousPricePointsSize], windowTargetSize),
                Kept(pricePoints, previousPricePointsSize, windowTargetSize),
                Trailing(pricePoints, windowTargetSize));
  }

  /** `SymbolData` of this revision: the series and one `StatWindow` per size. */
  class SymbolData {
    /** The symbol whose series this is (a map key in the source). */
    ghost const symbol: string
    /** Every price point received for the symbol, oldest first. */
    var pricePoints: seq<real>
    /** One window per target size; the map itself is never changed. */
    const statWindowsPerSize: map<nat, StatWindow>
    /** The windows of the map, as a set: what an update may change. */
    ghost const windows: set<StatWindow>

    /** One window per size 10^1 … 10^8, stored under its size and its
        symbol, each holding the fields of the trailing points of the
        series for its size. */
    ghost predicate Valid()
      reads this, windows
    {
      windows == statWindowsPerSize.Values && statWindowsPerSize.Keys == WindowSizes() &&
      (forall w :: w in windows ==> w.symbol == symbol) &&
      (forall T :: T in statWindowsPerSize ==> statWindowsPerSize[T].targetSize == T) &&
      forall T {:trigger Tracks(statWindowsPerSize[T], pricePoints, T)} :: T in statWindowsPerSize ==>
        Tracks(statWindowsPerSize[T], pricePoints, T)
    }

    /** `NewSymbolData`: an empty series and a zero-valued window for each
        of the sizes 10^1 … 10^8. */
    constructor (ghost symbol: string)
      ensures Valid() && this.symbol == symbol && pricePoints == []
      ensures forall T :: T in statWindowsPerSize ==> statWindowsPerSize[T].Fields() == ZeroSnapshot
      ensures fresh(windows)
    {
      var perSize: map<nat, StatWindow> := map[];
      for i := 1 to WindowCount + 1
        invariant perSize.Keys == SizesBelow(i)
        invariant forall T :: T in perSize ==> perSize[T].symbol == symbol && perSize[T].targetSize == T
        invariant forall T :: T in perSize ==> fresh(perSize[T])
        invariant forall T :: T in perSize ==> perSize[T].Fields() == ZeroSnapshot
      {
        var window := new StatWindow(symbol, Pow10(i));
        SizesBelowStep(i);
        perSize := perSize[Pow10(i) := window];
      }
      this.symbol := symbol;
      pricePoints := [];
      statWindowsPerSize := perSize;
      windows := perSize.Values;
      new;
      forall T | T in statWindowsPerSize
        ensures Tracks(statWindowsPerSize[T], pricePoints, T)
      {
        assert Trailing(pricePoints, T) == [];
      }
    }

    /** Part way through the window loop of `addBatch`: the windows whose
        size is still in `remaining` hold the series before the batch
        (its first oldLen points), the others the whole series. */
    ghost predicate SlidingOver(series: seq<real>, oldLen: nat, remaining: set<nat>)
      reads this, statWindowsPerSize.Values
    {
      oldLen <= |series| && remaining <= statWindowsPerSize.Keys &&
      (forall T :: T in statWindowsPerSize ==> statWindowsPerSize[T].targetSize == T) &&
      (forall T :: T in statWindowsPerSize && T !in remaining ==> Tracks(statWindowsPerSize[T], series, T)) &&
      (forall T :: T in remaining ==> Tracks(statWindowsPerSize[T], series[..oldLen], T))
    }

    /** The body of the window loop: slides the window of one size still
        to do and leaves every other window as it was. */
    method SlideWindowOfSize(series: seq<real>, oldLen: nat, remaining: set<nat>, windowTargetSize: nat)
      requires SlidingOver(series, oldLen, remaining) && windowTargetSize in remaining && |series| > 0
      modifies statWindowsPerSize[windowTargetSize]
      ensures SlidingOver(series, oldLen, remaining - {windowTargetSize})
    {
      var statWindow := statWindowsPerSize[windowTargetSize];
      SlideStatWindow(statWindow, series, oldLen, windowTargetSize);
    }

    /** `addBatch`: appends the batch to the series, then slides every
        window over it (in the order the map yields its sizes). The first
        batch of a symbol must not be empty: with no points at all the
        source divides by a zero window size. */
    method AddBatch(newPricePoints: seq<real>)
      requires Valid()
      requires |pricePoints| + |newPricePoints| > 0
      modifies this, windows
      ensures Valid()
      ensures pricePoints == old(pricePoints) + newPricePoints
    {
      var previousPricePointsSize := |pricePoints|;
      pricePoints := pricePoints + newPricePoints;
      assert pricePoints[..previousPricePointsSize] == old(pricePoints);
      var remaining := statWindowsPerSize.Keys;
      while remaining != {}
        invariant pricePoints == old(pricePoints) + newPricePoints
        invariant SlidingOver(pricePoints, previousPricePointsSize, remaining)
        decreases remaining
      {
        HasSize(remaining);
        var windowTargetSize :| windowTargetSize in remaining;
        SlideWindowOfSize(pricePoints, previousPricePointsSize, remaining, windowTargetSize);
        remaining := remaining - {windowTargetSize};
      }
    }
  }

  /** Data none of whose objects an update touched stays valid, over the
      same series. */
  twostate lemma KeepsValid(sd: SymbolData)
    requires old(sd.Valid())
    requires unchanged(sd)
    requires forall w :: w in sd.windows ==> unchanged(w)
    ensures sd.Valid() && sd.pricePoints == old(sd.pricePoints)
  {
  }

  /** Windows tagged with different symbols are different objects. */
  lemma TaggedApart(a: set<StatWindow>, b: set<StatWindow>, s: string, t: string)
    requires s != t
    requires forall w :: w in a ==> w.symbol == s
    requires forall w :: w in b ==> w.symbol == t
    ensures a !! b
  {
  }

  /** The registry of this revision: the same lazy creation as the
      package's, and a `GetStats` that copies a window out. */
  class TradeAnalysisEngine {
    var symbolDataPerSymbol: map<string, SymbolData>
    var locksPerSymbol: map<string, Engine.RWMutex>

    /** Every object the registry owns: each symbol's data and its windows. */
    ghost var Repr: set<object>

    /** Both maps have the same symbols; each symbol's data is stored
        under its own symbol, is valid and is owned, with its windows, by
        the registry. */
    ghost predicate Valid()
      reads this, Repr
    {
      symbolDataPerSymbol.Keys == locksPerSymbol.Keys &&
      forall s :: s in symbolDataPerSymbol ==>
        symbolDataPerSymbol[s] in Repr && symbolDataPerSymbol[s].windows <= Repr &&
        symbolDataPerSymbol[s].symbol == s && symbolDataPerSymbol[s].Valid()
    }

    /** The price series received for a symbol; empty for one never seen. */
    ghost function Series(symbol: string): seq<real>
      reads this, Repr
      requires Valid()
    {
      if symbol in symbolDataPerSymbol then symbolDataPerSymbol[symbol].pricePoints else []
    }

    /** `NewTradeAnalysisEngine`: both maps empty. */
    constructor ()
      ensures Valid() && symbolDataPerSymbol == map[] && locksPerSymbol == map[] && Repr == {}
    {
      symbolDataPerSymbol := map[];
      locksPerSymbol := map[];
      Repr := {};
    }

    /** The first half of `AddBatch`: registers fresh data and a lock for
        a symbol not seen before (checking twice, as the source does
        around taking the root lock); a known symbol is left as it is.
        Every series stays the same. */
    method Register(symbol: string)
      requires Valid()
      modifies this
      ensures Valid()
      ensures symbolDataPerSymbol.Keys == old(symbolDataPerSymbol.Keys) + {symbol}
      ensures forall s :: s in old(symbolDataPerSymbol) ==>
        symbolDataPerSymbol[s] == old(symbolDataPerSymbol[s]) && locksPerSymbol[s] == old(locksPerSymbol[s])
      ensures fresh(Repr - old(Repr))
      ensures forall s :: Series(s) == old(Series(s))
    {
      var symbolExists := symbol in symbolDataPerSymbol;
      if !symbolExists {
        var symbolReallyExists := symbol in symbolDataPerSymbol;
        if !symbolReallyExists {
          AddSymbol(symbol);
        }
      }
    }

    /** Registers fresh data, with an empty series and zero-valued
        windows, and a lock for a new symbol. */
    method AddSymbol(symbol: string)
      requires Valid() && symbol !in symbolDataPerSymbol
      modifies this
      ensures Valid()
      ensures symbolDataPerSymbol.Keys == old(symbolDataPerSymbol.Keys) + {symbol}
      ensures forall s :: s in old(symbolDataPerSymbol) ==>
        symbolDataPerSymbol[s] == old(symbolDataPerSymbol[s]) && locksPerSymbol[s] == old(locksPerSymbol[s])
      ensures fresh(Repr - old(Repr))
      ensures forall s :: Series(s) == old(Series(s))
    {
      var symbolData := new SymbolData(symbol);
      symbolDataPerSymbol, locksPerSymbol, Repr :=
        symbolDataPerSymbol[symbol := symbolData], locksPerSymbol[symbol := Engine.RWMutex],
        Repr + {symbolData} + symbolData.windows;
      NewSymbol(symbol, symbolData);
    }

    /** `AddBatch`: registers the symbol if it is new, then applies the
        batch to that symbol's data; every other symbol keeps its data,
        its windows and its series. The first batch of a symbol must not
        be empty (see `SymbolData.AddBatch`). */
    method AddBatch(symbol: string, newPricePoints: seq<real>)
      requires Valid()
      requires |Series(symbol)| + |newPricePoints| > 0
      modifies this, Repr
      ensures Valid()
      ensures symbolDataPerSymbol.Keys == old(symbolDataPerSymbol.Keys) + {symbol}
      ensures forall s :: s in old(symbolDataPerSymbol) ==>
        symbolDataPerSymbol[s] == old(symbolDataPerSymbol[s]) && locksPerSymbol[s] == old(locksPerSymbol[s])
      ensures Series(symbol) == old(Series(symbol)) + newPricePoints
      ensures fresh(Repr - old(Repr))
      ensures forall s :: s != symbol ==> Series(s) == old(Series(s))
    {
      Register(symbol);
      var symbolData := symbolDataPerSymbol[symbol];
      assert forall w :: w in symbolData.windows ==> w.symbol == symbol;
      label registered:
      symbolData.AddBatch(newPricePoints);
      UpdateOfOneSymbol@registered(symbol);
    }

    /** Registering fresh, valid and empty data under a new symbol keeps
        the registry valid and changes no series. */
    twostate lemma NewSymbol(symbol: string, new sd: SymbolData)
      requires old(Valid()) && symbol !in old(symbolDataPerSymbol)
      requires fresh(sd) && sd.Valid() && sd.symbol == symbol && sd.pricePoints == []
      requires symbolDataPerSymbol == old(symbolDataPerSymbol)[symbol := sd]
      requires locksPerSymbol.Keys == symbolDataPerSymbol.Keys
      requires Repr == old(Repr) + {sd} + sd.windows
      requires unchanged(old(Repr) - {this})
      ensures Valid()
      ensures forall s :: Series(s) == old(Series(s))
    {
      forall s | s in symbolDataPerSymbol && s != symbol
        ensures symbolDataPerSymbol[s].Valid() && symbolDataPerSymbol[s].pricePoints == old(symbolDataPerSymbol[s].pricePoints)
      {
        KeepsValid(symbolDataPerSymbol[s]);
      }
    }

    /** After the data of one symbol (and nothing else the registry owns)
        was updated validly, the registry is valid again and every other
        symbol has its old series. */
    twostate lemma UpdateOfOneSymbol(symbol: string)
      requires old(Valid()) && symbol in old(symbolDataPerSymbol)
      requires unchanged(this)
      requires symbolDataPerSymbol[symbol].Valid()
      requires forall o ::
        o in old(Repr) && o != symbolDataPerSymbol[symbol] && o !in symbolDataPerSymbol[symbol].windows ==> unchanged(o)
      ensures Valid()
      ensures forall s :: s != symbol ==> Series(s) == old(Series(s))
    {
      var sd := symbolDataPerSymbol[symbol];
      forall s | s in symbolDataPerSymbol && s != symbol
        ensures symbolDataPerSymbol[s].Valid() && symbolDataPerSymbol[s].pricePoints == old(symbolDataPerSymbol[s].pricePoints)
      {
        var other := symbolDataPerSymbol[s];
        assert other.symbol != sd.symbol;
        TaggedApart(other.windows, sd.windows, s, symbol);
        KeepsValid(other);
      }
    }

    /** `GetStats`: a copy of window 10^k of a registered symbol, which
        holds the fields of the last min(10^k, n) points of its series.
        There is no not-found path: the symbol must be registered (the
        source locks a nil lock otherwise) and k must name one of the
        eight windows (the source dereferences a missing window
        otherwise). Nothing changes. */
    method GetStats(symbol: string, k: int) returns (window: Snapshot)
      requires Valid()
      requires symbol in symbolDataPerSymbol && 1 <= k <= WindowCount
      ensures window == LegacySummary(Trailing(Series(symbol), Pow10(k)))
    {
      var sd := symbolDataPerSymbol[symbol];
      assert Pow10(k) in WindowSizes();
      assert Tracks(sd.statWindowsPerSize[Pow10(k)], sd.pricePoints, Pow10(k));
      return sd.statWindowsPerSize[Pow10(k)].Fields();
    }
  }
}
