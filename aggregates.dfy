/** Exact sums over a sequence of prices (the `sumSlice` and
    `calcSumOfSquares` accumulators), together with the from-scratch
    statistics that the incremental windows are measured against:
    mean, population variance, minimum and maximum. Prices are exact
    decimals, modelled as `real`. */
module Aggregates {

  /** Σ s, folded from the left, one element at a time. */
  function Sum(s: seq<real>): real
  {
    if s == [] then 0.0 else Sum(s[..|s| - 1]) + s[|s| - 1]
  }

  /** Σ x² over s. */
  function SumSq(s: seq<real>): real
  {
    if s == [] then 0.0 else SumSq(s[..|s| - 1]) + s[|s| - 1] * s[|s| - 1]
  }

  /** Σ (x − c)² over s: the textbook spread of s around c. */
  function SqDev(s: seq<real>, c: real): real
  {
    if s == [] then 0.0 else SqDev(s[..|s| - 1], c) + (s[|s| - 1] - c) * (s[|s| - 1] - c)
  }

  lemma SquareNonNegative(d: real)
    ensures d * d >= 0.0
  {
    if d < 0.0 {
      assert d * d == (-d) * (-d);
    }
  }

  lemma {:induction false} SumSqNonNegative(s: seq<real>)
    ensures SumSq(s) >= 0.0
  {
    if s != [] {
      SumSqNonNegative(s[..|s| - 1]);
      SquareNonNegative(s[|s| - 1]);
    }
  }

  lemma {:induction false} SqDevNonNegative(s: seq<real>, c: real)
    ensures SqDev(s, c) >= 0.0
  {
    if s != [] {
      SqDevNonNegative(s[..|s| - 1], c);
      SquareNonNegative(s[|s| - 1] - c);
    }
  }

  /** Sums split over concatenation: the fact behind every running total. */
  lemma {:induction false} SumAppend(a: seq<real>, b: seq<real>)
    ensures Sum(a + b) == Sum(a) + Sum(b)
  {
    if b == [] {
      assert a + b == a;
    } else {
      assert (a + b)[..|a + b| - 1] == a + b[..|b| - 1];
      SumAppend(a, b[..|b| - 1]);
    }
  }

  lemma {:induction false} SumSqAppend(a: seq<real>, b: seq<real>)
    ensures SumSq(a + b) == SumSq(a) + SumSq(b)
  {
    if b == [] {
      assert a + b == a;
    } else {
      assert (a + b)[..|a + b| - 1] == a + b[..|b| - 1];
      SumSqAppend(a, b[..|b| - 1]);
    }
  }

  /** `sumSlice`: accumulates the elements left to right, starting at 0. */
  method SumSlice(numbers: seq<real>) returns (sum: real)
    ensures sum == Sum(numbers)
  {
    sum := 0.0;
    for i := 0 to |numbers|
      invariant sum == Sum(numbers[..i])
    {
      assert numbers[..i + 1][..i] == numbers[..i];
      sum := sum + numbers[i];
    }
    assert numbers[..|numbers|] == numbers;
  }

  /** `calcSumOfSquares`: accumulates x·x left to right, starting at 0. */
  method CalcSumOfSquares(points: seq<real>) returns (sumOfSquares: real)
    ensures sumOfSquares == SumSq(points) && sumOfSquares >= 0.0
  {
    sumOfSquares := 0.0;
    for i := 0 to |points|
      invariant sumOfSquares == SumSq(points[..i])
    {
      assert points[..i + 1][..i] == points[..i];
      sumOfSquares := sumOfSquares + points[i] * points[i];
    }
    assert points[..|points|] == points;
    SumSqNonNegative(points);
  }

  /** Arithmetic mean of a non-empty window. */
  function Mean(w: seq<real>): real
    requires |w| > 0
  {
    Sum(w) / (|w| as real)
  }

  /** Population variance in the form the windows compute it:
      Σ x² / N − mean² (dividing by N, never by N − 1). */
  function PopVariance(w: seq<real>): real
    requires |w| > 0
  {
    SumSq(w) / (|w| as real) - Mean(w) * Mean(w)
  }

  lemma {:induction false} MeanTimesLength(w: seq<real>)
    requires |w| > 0
    ensures Mean(w) * (|w| as real) == Sum(w)
  {
  }

  /** One step of expanding Σ (x − c)²: appending x to a prefix with
      d0 = q0 − 2·c·s0 + k·c² keeps the identity for the longer prefix. */
  lemma ExpandStep(d0: real, q0: real, s0: real, k: real, x: real, c: real,
                   d: real, q: real, s: real, kk: real)
    requires d0 == q0 - 2.0 * c * s0 + k * c * c
    requires d == d0 + (x - c) * (x - c)
    requires q == q0 + x * x
    requires s == s0 + x
    requires kk == k + 1.0
    ensures d == q - 2.0 * c * s + kk * c * c
  {
    assert (x - c) * (x - c) == x * x - 2.0 * c * x + c * c;
    assert 2.0 * c * s == 2.0 * c * s0 + 2.0 * c * x;
    assert kk * c * c == k * c * c + c * c;
  }

  /** Expanding the square: Σ (x − c)² = Σ x² − 2·c·Σ x + N·c². */
  lemma {:induction false} SqDevExpand(s: seq<real>, c: real)
    ensures SqDev(s, c) == SumSq(s) - 2.0 * c * Sum(s) + (|s| as real) * c * c
  {
    if s != [] {
      var init := s[..|s| - 1];
      SqDevExpand(init, c);
      assert (|s| as real) == (|init| as real) + 1.0;
      ExpandStep(SqDev(init, c), SumSq(init), Sum(init), |init| as real, s[|s| - 1], c,
                 SqDev(s, c), SumSq(s), Sum(s), |s| as real);
    }
  }

  /** With m·n = s, the cross term −2·m·s and n·m² combine to −n·m². */
  lemma CenteredAlgebra(q: real, s: real, n: real, m: real, d: real)
    requires m * n == s
    requires d == q - 2.0 * m * s + n * m * m
    ensures d == q - n * m * m
  {
    assert m * s == m * (m * n);
  }

  lemma DivideCentered(q: real, n: real, m: real, d: real)
    requires n > 0.0
    requires d == q - n * m * m
    ensures q / n - m * m == d / n
  {
    assert (n * m * m) / n == m * m;
  }

  /** Around its own mean m, Σ (x − m)² = Σ x² − N·m². */
  lemma {:induction false} SqDevAtMean(w: seq<real>, m: real)
    requires m * (|w| as real) == Sum(w)
    ensures SqDev(w, m) == SumSq(w) - (|w| as real) * m * m
  {
    SqDevExpand(w, m);
    CenteredAlgebra(SumSq(w), Sum(w), |w| as real, m, SqDev(w, m));
  }

  lemma {:induction false} VarianceAt(w: seq<real>, m: real)
    requires |w| > 0
    requires m * (|w| as real) == Sum(w)
    ensures SumSq(w) / (|w| as real) - m * m == SqDev(w, m) / (|w| as real)
  {
    SqDevAtMean(w, m);
    DivideCentered(SumSq(w), |w| as real, m, SqDev(w, m));
  }

  /** The running form of the variance is the textbook one: the mean
      squared deviation from the mean. */
  lemma {:induction false} VarianceIsMeanSquaredDeviation(w: seq<real>)
    requires |w| > 0
    ensures PopVariance(w) == SqDev(w, Mean(w)) / (|w| as real)
  {
    MeanTimesLength(w);
    VarianceAt(w, Mean(w));
  }

  /** With exact arithmetic the population variance is never negative. */
  lemma {:induction false} VarianceNonNegative(w: seq<real>)
    requires |w| > 0
    ensures PopVariance(w) >= 0.0
  {
    VarianceIsMeanSquaredDeviation(w);
    SqDevNonNegative(w, Mean(w));
    assert SqDev(w, Mean(w)) / (|w| as real) >= 0.0;
  }

  /** Smallest element of a non-empty sequence. */
  function SeqMin(s: seq<real>): real
    requires |s| > 0
  {
    if |s| == 1 then s[0]
    else
      var m, x := SeqMin(s[..|s| - 1]), s[|s| - 1];
      if x < m then x else m
  }

  /** Largest element of a non-empty sequence. */
  function SeqMax(s: seq<real>): real
    requires |s| > 0
  {
    if |s| == 1 then s[0]
    else
      var m, x := SeqMax(s[..|s| - 1]), s[|s| - 1];
      if x > m then x else m
  }

  /** SeqMin(s) is an element of s and no element is smaller. */
  lemma {:induction false} SeqMinIsLeast(s: seq<real>)
    requires |s| > 0
    ensures SeqMin(s) in s && forall x :: x in s ==> SeqMin(s) <= x
  {
    if |s| > 1 {
      var init := s[..|s| - 1];
      SeqMinIsLeast(init);
      assert forall y :: y in s ==> y in init || y == s[|s| - 1];
      assert SeqMin(init) in s;
    }
  }

  /** SeqMax(s) is an element of s and no element is larger. */
  lemma {:induction false} SeqMaxIsGreatest(s: seq<real>)
    requires |s| > 0
    ensures SeqMax(s) in s && forall x :: x in s ==> x <= SeqMax(s)
  {
    if |s| > 1 {
      var init := s[..|s| - 1];
      SeqMaxIsGreatest(init);
      assert forall y :: y in s ==> y in init || y == s[|s| - 1];
      assert SeqMax(init) in s;
    }
  }

  /** Any element below-or-equal to all of s is SeqMin(s). */
  lemma MinIsUnique(s: seq<real>, r: real)
    requires r in s && forall x :: x in s ==> r <= x
    ensures r == SeqMin(s)
  {
    SeqMinIsLeast(s);
  }

  /** Any element above-or-equal to all of s is SeqMax(s). */
  lemma MaxIsUnique(s: seq<real>, r: real)
    requires r in s && forall x :: x in s ==> x <= r
    ensures r == SeqMax(s)
  {
    SeqMaxIsGreatest(s);
  }

  lemma ScaleStep(k: real, c: real, kk: real, a: real, b: real)
    requires kk == k + 1.0
    requires a == k * c && b == kk * c
    ensures b == a + c
  {
  }

  /** A sum of points that all lie in [lo, hi] lies in [N·lo, N·hi]. */
  lemma {:induction false} SumBounds(s: seq<real>, lo: real, hi: real)
    requires forall x :: x in s ==> lo <= x <= hi
    ensures (|s| as real) * lo <= Sum(s) <= (|s| as real) * hi
  {
    if s != [] {
      var init := s[..|s| - 1];
      assert forall x :: x in init ==> x in s;
      SumBounds(init, lo, hi);
      assert s[|s| - 1] in s;
      ScaleStep(|init| as real, lo, |s| as real, (|init| as real) * lo, (|s| as real) * lo);
      ScaleStep(|init| as real, hi, |s| as real, (|init| as real) * hi, (|s| as real) * hi);
    }
  }

  lemma DivideBounds(n: real, lo: real, s: real, hi: real)
    requires n > 0.0 && n * lo <= s <= n * hi
    ensures lo <= s / n <= hi
  {
    assert (n * lo) / n == lo && (n * hi) / n == hi;
  }

  /** The mean of a window lies between its smallest and largest point. */
  lemma {:induction false} MeanBetween(w: seq<real>)
    requires |w| > 0
    ensures SeqMin(w) <= Mean(w) <= SeqMax(w)
  {
    SeqMinIsLeast(w);
    SeqMaxIsGreatest(w);
    SumBounds(w, SeqMin(w), SeqMax(w));
    DivideBounds(|w| as real, SeqMin(w), Sum(w), SeqMax(w));
  }
}
