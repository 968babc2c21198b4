/** The registry (`TradeAnalysisEngine`): per-symbol data created lazily
    on the first batch for a symbol, batches routed to their symbol, and
    statistics looked up per symbol and window size. Locking is not
    modelled: the registry is sequential, and a lock is a plain value
    kept only so that the lock map's keys can be stated. */
module Engine {
  import opened Aggregates
  import opened Sliding
  import opened StatsWindows
  import opened Symbols

  /** A per-symbol `sync.RWMutex`, which has no state a sequential model
      can observe. */
  datatype RWMutex = RWMutex

  /** The error result of `GetStats`: nil, or `ErrSymbolNotFound`. */
  datatype Error = NoError | ErrSymbolNotFound

  /** Data none of whose objects an update touched stays valid, over the
      same series. */
  twostate lemma KeepsValid(sd: SymbolData)
    requires old(sd.Valid())
    requires unchanged(sd)
    requires forall w :: w in sd.windows ==> unchanged(w)
    ensures sd.Valid() && sd.pricePoints == old(sd.pricePoints)
  {
  }

  /** Windows tagged with different symbols are different objects. */
  lemma TaggedApart(a: set<StatsWindow>, b: set<StatsWindow>, s: string, t: string)
    requires s != t
    requires forall w :: w in a ==> w.symbol == s
    requires forall w :: w in b ==> w.symbol == t
    ensures a !! b
  {
  }

  class TradeAnalysisEngine {
    var symbolDataPerSymbol: map<string, SymbolData>
    var locksPerSymbol: map<string, RWMutex>

    /** Every object the registry owns: each symbol's data and its windows. */
    ghost var Repr: set<object>

    /** Both maps have the same symbols; each symbol's data is stored
        under its own symbol, is valid and is owned, with its windows, by
        the registry. */
    ghost predicate Valid()
      reads this, Repr
    {
      symbolDataPerSymbol.Keys == locksPerSymbol.Keys &&
      forall s :: s in symbolDataPerSymbol ==>
        symbolDataPerSymbol[s] in Repr && symbolDataPerSymbol[s].windows <= Repr &&
        symbolDataPerSymbol[s].symbol == s && symbolDataPerSymbol[s].Valid()
    }

    /** The price series received for a symbol; empty for one never seen. */
    ghost function Series(symbol: string): seq<real>
      reads this, Repr
      requires Valid()
    {
      if symbol in symbolDataPerSymbol then symbolDataPerSymbol[symbol].pricePoints else []
    }

    /** `NewTradeAnalysisEngine`: both maps empty. */
    constructor ()
      ensures Valid() && symbolDataPerSymbol == map[] && locksPerSymbol == map[] && Repr == {}
    {
      symbolDataPerSymbol := map[];
      locksPerSymbol := map[];
      Repr := {};
    }

    /** The first half of `AddBatch`: registers fresh data and a lock for
        a symbol not seen before (checking twice, as the source does around taking
        the root lock); a known symbol is left as it is. Every series
        stays the same. */
    method Register(symbol: string)
      requires Valid()
      modifies this
      ensures Valid()
      ensures symbolDataPerSymbol.Keys == old(symbolDataPerSymbol.Keys) + {symbol}
      ensures forall s :: s in old(symbolDataPerSymbol) ==>
        symbolDataPerSymbol[s] == old(symbolDataPerSymbol[s]) && locksPerSymbol[s] == old(locksPerSymbol[s])
      ensures fresh(Repr - old(Repr))
      ensures forall s :: Series(s) == old(Series(s))
    {
      var symbolExists := symbol in symbolDataPerSymbol;
      if !symbolExists {
        var symbolReallyExists := symbol in symbolDataPerSymbol;
        if !symbolReallyExists {
          AddSymbol(symbol);
        }
      }
    }

    /** Registers fresh data, with an empty series and empty windows, and
        a lock for a new symbol. */
    method AddSymbol(symbol: string)
      requires Valid() && symbol !in symbolDataPerSymbol
      modifies this
      ensures Valid()
      ensures symbolDataPerSymbol.Keys == old(symbolDataPerSymbol.Keys) + {symbol}
      ensures forall s :: s in old(symbolDataPerSymbol) ==>
        symbolDataPerSymbol[s] == old(symbolDataPerSymbol[s]) && locksPerSymbol[s] == old(locksPerSymbol[s])
      ensures fresh(Repr - old(Repr))
      ensures forall s :: Series(s) == old(Series(s))
    {
      var symbolData := new SymbolData(symbol);
      symbolDataPerSymbol, locksPerSymbol, Repr :=
        symbolDataPerSymbol[symbol := symbolData], locksPerSymbol[symbol := RWMutex],
        Repr + {symbolData} + symbolData.windows;
      NewSymbol(symbol, symbolData);
    }

    /** `AddBatch`: registers the symbol if it is new, then applies the
        batch to that symbol's data; every other symbol keeps its data,
        its windows and its series. The first batch of a symbol must not
        be empty (see `SymbolData.AddBatch`). */
    method AddBatch(symbol: string, newPricePoints: seq<real>)
      requires Valid()
      requires |Series(symbol)| + |newPricePoints| > 0
      modifies this, Repr
      ensures Valid()
      ensures symbolDataPerSymbol.Keys == old(symbolDataPerSymbol.Keys) + {symbol}
      ensures forall s :: s in old(symbolDataPerSymbol) ==>
        symbolDataPerSymbol[s] == old(symbolDataPerSymbol[s]) && locksPerSymbol[s] == old(locksPerSymbol[s])
      ensures Series(symbol) == old(Series(symbol)) + newPricePoints
      ensures fresh(Repr - old(Repr))
      ensures forall s :: s != symbol ==> Series(s) == old(Series(s))
    {
      Register(symbol);
      var symbolData := symbolDataPerSymbol[symbol];
      assert forall w :: w in symbolData.windows ==> w.symbol == symbol;
      label registered:
      symbolData.AddBatch(newPricePoints);
      UpdateOfOneSymbol@registered(symbol);
    }

    /** Registering fresh, valid and empty data under a new symbol keeps
        the registry valid and changes no series. */
    twostate lemma NewSymbol(symbol: string, new sd: SymbolData)
      requires old(Valid()) && symbol !in old(symbolDataPerSymbol)
      requires fresh(sd) && sd.Valid() && sd.symbol == symbol && sd.pricePoints == []
      requires symbolDataPerSymbol == old(symbolDataPerSymbol)[symbol := sd]
      requires locksPerSymbol.Keys == symbolDataPerSymbol.Keys
      requires Repr == old(Repr) + {sd} + sd.windows
      requires unchanged(old(Repr) - {this})
      ensures Valid()
      ensures forall s :: Series(s) == old(Series(s))
    {
      forall s | s in symbolDataPerSymbol && s != symbol
        ensures symbolDataPerSymbol[s].Valid() && symbolDataPerSymbol[s].pricePoints == old(symbolDataPerSymbol[s].pricePoints)
      {
        KeepsValid(symbolDataPerSymbol[s]);
      }
    }

    /** After the data of one symbol (and nothing else the registry owns)
        was updated validly, the registry is valid again and every other
        symbol has its old series: windows carry their symbol, so those
        of different symbols are different objects. */
    twostate lemma UpdateOfOneSymbol(symbol: string)
      requires old(Valid()) && symbol in old(symbolDataPerSymbol)
      requires unchanged(this)
      requires symbolDataPerSymbol[symbol].Valid()
      requires forall o ::
        o in old(Repr) && o != symbolDataPerSymbol[symbol] && o !in symbolDataPerSymbol[symbol].windows ==> unchanged(o)
      ensures Valid()
      ensures forall s :: s != symbol ==> Series(s) == old(Series(s))
    {
      var sd := symbolDataPerSymbol[symbol];
      forall s | s in symbolDataPerSymbol && s != symbol
        ensures symbolDataPerSymbol[s].Valid() && symbolDataPerSymbol[s].pricePoints == old(symbolDataPerSymbol[s].pricePoints)
      {
        var other := symbolDataPerSymbol[s];
        assert other.symbol != sd.symbol;
        TaggedApart(other.windows, sd.windows, s, symbol);
        KeepsValid(other);
      }
    }

    /** `GetStats`: the statistics of window 10^k of a registered symbol,
        which are those of the last min(10^k, n) points of its series; zero
        statistics and `ErrSymbolNotFound` for a symbol never seen. For a
        registered symbol k must name one of the eight windows (the source
        would dereference a missing window otherwise). Nothing changes. */
    method GetStats(symbol: string, k: int) returns (stats: Stats, err: Error)
      requires Valid()
      requires symbol in symbolDataPerSymbol ==> 1 <= k <= WindowCount
      ensures symbol !in symbolDataPerSymbol ==> stats == ZeroStats && err == ErrSymbolNotFound
      ensures symbol in symbolDataPerSymbol ==>
        err == NoError && stats == Summary(Trailing(Series(symbol), Pow10(k)))
    {
      if symbol in symbolDataPerSymbol {
        var sd := symbolDataPerSymbol[symbol];
        assert Pow10(k) in WindowSizes();
        assert Tracks(sd.statWindowsPerSize[Pow10(k)], sd.pricePoints, Pow10(k));
        return sd.statWindowsPerSize[Pow10(k)].stats, NoError;
      }
      return ZeroStats, ErrSymbolNotFound;
    }
  }
}
