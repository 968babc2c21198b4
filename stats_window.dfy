/** One trailing window: its published statistics, the running sum of
    squares, and the ordered map from price to multiplicity that holds
    the window's points (`StatsWindow` and `Stats`). The ordered map is
    modelled by its content, a `map<real, nat>`; its ordering is only
    used for the smallest and largest key. */
module StatsWindows {

  /** The five published statistics of a window. */
  datatype Stats = Stats(min: real, max: real, last: real, average: real, variance: real)

  /** The zero value of `Stats`, which a fresh window publishes. */
  const ZeroStats := Stats(0.0, 0.0, 0.0, 0.0, 0.0)

  /** `Stats.Equal`: field-by-field numeric equality. Decimals that differ
      only in their trailing zeros are the same real, so this is equality
      of the values. */
  function Equal(a: Stats, b: Stats): (r: bool)
    ensures r <==> a == b
  {
    a.min == b.min && a.max == b.max && a.last == b.last &&
    a.average == b.average && a.variance == b.variance
  }

  /** Price ↦ number of occurrences in the window. */
  type Tree = map<real, nat>

  /** Multiplicity of x, zero when x is not a key. */
  function Count(t: Tree, x: real): nat
  {
    if x in t then t[x] else 0
  }

  /** Every stored multiplicity is at least one: a key is dropped when
      its count would reach zero. */
  ghost predicate WellFormed(t: Tree)
  {
    forall x :: x in t ==> t[x] >= 1
  }

  /** t holds exactly the multiset ms. */
  ghost predicate Models(t: Tree, ms: multiset<real>)
  {
    forall x :: Count(t, x) == ms[x]
  }

  /** Two well-formed trees holding the same multiset are the same tree. */
  lemma ModelsUnique(t1: Tree, t2: Tree, ms: multiset<real>)
    requires WellFormed(t1) && Models(t1, ms)
    requires WellFormed(t2) && Models(t2, ms)
    ensures t1 == t2
  {
    forall x
      ensures x in t1 <==> x in t2
    {
      assert Count(t1, x) == ms[x] == Count(t2, x);
    }
    forall x | x in t1
      ensures t1[x] == t2[x]
    {
      assert Count(t1, x) == ms[x] == Count(t2, x);
    }
  }

  /** A well-formed tree's keys are exactly the values of the multiset it holds. */
  lemma ModelsKeys(t: Tree, ms: multiset<real>, x: real)
    requires WellFormed(t) && Models(t, ms)
    ensures x in t <==> x in ms
  {
    assert Count(t, x) == ms[x];
  }

  /** The tree after `InsertToTreeMap(x)`. */
  function Inserted(t: Tree, x: real): Tree
  {
    if x in t then t[x := t[x] + 1] else t[x := 1]
  }

  /** The tree after `RemoveFromTreeMap(x)`. */
  function Removed(t: Tree, x: real): Tree
  {
    if x in t then
      if t[x] > 1 then t[x := t[x] - 1] else t - {x}
    else t
  }

  /** Inserting counts x once more, adds x as a key if it was missing,
      and keeps every count positive. */
  lemma InsertedCounts(t: Tree, x: real)
    ensures forall y :: Count(Inserted(t, x), y) == Count(t, y) + (if y == x then 1 else 0)
    ensures Inserted(t, x).Keys == t.Keys + {x}
    ensures WellFormed(t) ==> WellFormed(Inserted(t, x))
  {
  }

  /** Removing counts x once less (a missing x is skipped), drops the key
      when its count would reach zero, and keeps every count positive. */
  lemma RemovedCounts(t: Tree, x: real)
    ensures x !in t ==> Removed(t, x) == t
    ensures forall y :: y != x ==> Count(Removed(t, x), y) == Count(t, y)
    ensures WellFormed(t) && x in t ==> Count(Removed(t, x), x) == t[x] - 1
    ensures x in t && t[x] <= 1 ==> Removed(t, x).Keys == t.Keys - {x}
    ensures WellFormed(t) ==> WellFormed(Removed(t, x))
  {
  }

  /** Inserting a value and removing it again gives back the same tree. */
  lemma InsertRemoveRoundTrip(t: Tree, x: real)
    requires WellFormed(t)
    ensures Removed(Inserted(t, x), x) == t
  {
    if x in t {
      assert Removed(Inserted(t, x), x) == t[x := t[x]];
    } else {
      assert Inserted(t, x) - {x} == t;
    }
  }

  lemma InsertedModels(t: Tree, ms: multiset<real>, x: real)
    requires WellFormed(t) && Models(t, ms)
    ensures WellFormed(Inserted(t, x)) && Models(Inserted(t, x), ms + multiset{x})
  {
    InsertedCounts(t, x);
  }

  /** Removing a value the tree does not hold changes nothing, which is
      what multiset difference does too. */
  lemma RemovedModels(t: Tree, ms: multiset<real>, x: real)
    requires WellFormed(t) && Models(t, ms)
    ensures WellFormed(Removed(t, x)) && Models(Removed(t, x), ms - multiset{x})
  {
    RemovedCounts(t, x);
    forall y
      ensures Count(Removed(t, x), y) == (ms - multiset{x})[y]
    {
      if y == x {
        assert Count(t, x) == ms[x];
      }
    }
  }

  /** The tree after `InsertSliceToTreeMap(s)`: the points inserted in order. */
  function InsertedAll(t: Tree, s: seq<real>): Tree
  {
    if s == [] then t else Inserted(InsertedAll(t, s[..|s| - 1]), s[|s| - 1])
  }

  /** The tree after `RemoveSliceFromTreeMap(s)`: the points removed in order. */
  function RemovedAll(t: Tree, s: seq<real>): Tree
  {
    if s == [] then t else Removed(RemovedAll(t, s[..|s| - 1]), s[|s| - 1])
  }

  /** Inserting a slice adds its multiset and keeps counts positive. */
  lemma {:induction false} InsertedAllModels(t: Tree, ms: multiset<real>, s: seq<real>)
    requires WellFormed(t) && Models(t, ms)
    ensures WellFormed(InsertedAll(t, s)) && Models(InsertedAll(t, s), ms + multiset(s))
  {
    if s != [] {
      var init, x := s[..|s| - 1], s[|s| - 1];
      InsertedAllModels(t, ms, init);
      InsertedModels(InsertedAll(t, init), ms + multiset(init), x);
      assert s == init + [x];
      assert ms + multiset(s) == ms + multiset(init) + multiset{x};
    }
  }

  /** Removing a slice subtracts its multiset (multiset difference, so
      values the tree no longer holds are skipped) and keeps counts positive. */
  lemma {:induction false} RemovedAllModels(t: Tree, ms: multiset<real>, s: seq<real>)
    requires WellFormed(t) && Models(t, ms)
    ensures WellFormed(RemovedAll(t, s)) && Models(RemovedAll(t, s), ms - multiset(s))
  {
    if s != [] {
      var init, x := s[..|s| - 1], s[|s| - 1];
      RemovedAllModels(t, ms, init);
      RemovedModels(RemovedAll(t, init), ms - multiset(init), x);
      assert s == init + [x];
      assert ms - multiset(s) == (ms - multiset(init)) - multiset{x};
    }
  }

  /** The tree built by inserting the points one by one into an empty
      tree, which is what a window's tree is once it holds those points. */
  ghost function TreeOf(points: seq<real>): Tree
  {
    InsertedAll(map[], points)
  }

  /** That tree holds exactly the points, each key with a positive count. */
  lemma TreeOfModels(points: seq<real>)
    ensures WellFormed(TreeOf(points)) && Models(TreeOf(points), multiset(points))
  {
    InsertedAllModels(map[], multiset{}, points);
    assert multiset{} + multiset(points) == multiset(points);
  }

  /** A non-empty set of prices has a member to pick. */
  lemma HasElement(s: set<real>)
    requires |s| > 0
    ensures exists x :: x in s
  {
    if forall x :: x !in s {
      assert false;
    }
  }

  class StatsWindow {
    var stats: Stats
    var sumOfSquares: real
    var pointsTreeMap: Tree
    /** The symbol and the target size under which the window is stored;
        the source keeps them only as map keys. */
    ghost const symbol: string
    ghost const targetSize: nat

    /** `NewStatWindow`: zero statistics over an empty tree. */
    constructor (ghost symbol: string, ghost targetSize: nat)
      ensures stats == ZeroStats && sumOfSquares == 0.0 && pointsTreeMap == map[]
      ensures this.symbol == symbol && this.targetSize == targetSize
    {
      this.symbol := symbol;
      this.targetSize := targetSize;
      stats := ZeroStats;
      sumOfSquares := 0.0;
      pointsTreeMap := map[];
    }

    method InsertToTreeMap(point: real)
      modifies this
      ensures pointsTreeMap == Inserted(old(pointsTreeMap), point)
      ensures stats == old(stats) && sumOfSquares == old(sumOfSquares)
    {
      if point in pointsTreeMap {
        pointsTreeMap := pointsTreeMap[point := pointsTreeMap[point] + 1];
      } else {
        pointsTreeMap := pointsTreeMap[point := 1];
      }
    }

    method InsertSliceToTreeMap(points: seq<real>)
      modifies this
      ensures pointsTreeMap == InsertedAll(old(pointsTreeMap), points)
      ensures stats == old(stats) && sumOfSquares == old(sumOfSquares)
    {
      for i := 0 to |points|
        invariant pointsTreeMap == InsertedAll(old(pointsTreeMap), points[..i])
        invariant stats == old(stats) && sumOfSquares == old(sumOfSquares)
      {
        assert points[..i + 1][..i] == points[..i];
        InsertToTreeMap(points[i]);
      }
      assert points[..|points|] == points;
    }

    method RemoveFromTreeMap(point: real)
      modifies this
      ensures pointsTreeMap == Removed(old(pointsTreeMap), point)
      ensures stats == old(stats) && sumOfSquares == old(sumOfSquares)
    {
      if point in pointsTreeMap {
        if pointsTreeMap[point] > 1 {
          pointsTreeMap := pointsTreeMap[point := pointsTreeMap[point] - 1];
        } else {
          pointsTreeMap := pointsTreeMap - {point};
        }
      }
    }

    method RemoveSliceFromTreeMap(points: seq<real>)
      modifies this
      ensures pointsTreeMap == RemovedAll(old(pointsTreeMap), points)
      ensures stats == old(stats) && sumOfSquares == old(sumOfSquares)
    {
      for i := 0 to |points|
        invariant pointsTreeMap == RemovedAll(old(pointsTreeMap), points[..i])
        invariant stats == old(stats) && sumOfSquares == old(sumOfSquares)
      {
        assert points[..i + 1][..i] == points[..i];
        RemoveFromTreeMap(points[i]);
      }
      assert points[..|points|] == points;
    }

    /** The tree's smallest key (`pointsTreeMap.Min()`); the source
        asserts the key is a decimal, so an empty tree is not allowed. */
    method TreeMin() returns (r: real)
      requires |pointsTreeMap| > 0
      ensures r in pointsTreeMap && forall y :: y in pointsTreeMap ==> r <= y
    {
      var keys := pointsTreeMap.Keys;
      assert |keys| == |pointsTreeMap|;
      HasElement(keys);
      r :| r in keys;
      keys := keys - {r};
      while |keys| > 0
        invariant keys <= pointsTreeMap.Keys && r in pointsTreeMap
        invariant forall y :: y in pointsTreeMap && y !in keys ==> r <= y
        decreases |keys|
      {
        HasElement(keys);
        var y :| y in keys;
        if y < r {
          r := y;
        }
        keys := keys - {y};
      }
    }

    /** The tree's largest key (`pointsTreeMap.Max()`). */
    method TreeMax() returns (r: real)
      requires |pointsTreeMap| > 0
      ensures r in pointsTreeMap && forall y :: y in pointsTreeMap ==> y <= r
    {
      var keys := pointsTreeMap.Keys;
      assert |keys| == |pointsTreeMap|;
      HasElement(keys);
      r :| r in keys;
      keys := keys - {r};
      while |keys| > 0
        invariant keys <= pointsTreeMap.Keys && r in pointsTreeMap
        invariant forall y :: y in pointsTreeMap && y !in keys ==> y <= r
        decreases |keys|
      {
        HasElement(keys);
        var y :| y in keys;
        if y > r {
          r := y;
        }
        keys := keys - {y};
      }
    }
  }
}
