/** Percentiles and bootstrap intervals (python/mlx_benchmark/statistics.py and
    python/mlx_worker/benchmarking.py), over the reals. */
module Percentiles {
  import opened Basics
  import Sorting

  ghost predicate Ascending(s: seq<real>) {
    forall i, j | 0 <= i <= j < |s| :: s[i] <= s[j]
  }

  predicate AtMost(a: real, b: real) {
    a <= b
  }

  function Sorted(s: seq<real>): seq<real> {
    Sorting.Sort(AtMost, s)
  }

  function Ceiling(x: real): int {
    -((-x).Floor)
  }

  function Rank(n: nat, p: real): (r: real)
    requires n >= 1 && 0.0 <= p <= 100.0
    ensures 0.0 <= r <= (n - 1) as real
  {
    RankBounds((n - 1) as real, p);
    (n - 1) as real * p / 100.0
  }

  /** The value between the samples at the floor and the ceiling of the rank. */
  function BetweenFloorAndCeiling(s: seq<real>, rank: real): real
    requires 0.0 <= rank <= (|s| - 1) as real
  {
    var lower, upper := rank.Floor, Ceiling(rank);
    if lower == upper then s[lower] else s[lower] + (s[upper] - s[lower]) * (rank - lower as real)
  }

  /** The percentile of the analysis. None stands for the error on an empty list. */
  function Percentile(values: seq<real>, p: real): Option<real>
    requires 0.0 <= p <= 100.0
  {
    if values == [] then None
    else
      var ordered := Sorted(values);
      SortedHasLength(values);
      Some(if |ordered| == 1 then ordered[0] else BetweenFloorAndCeiling(ordered, Rank(|ordered|, p)))
  }

  function WorkerRank(n: nat, p: real): (r: real)
    requires n >= 1 && 0.0 <= p <= 100.0
    ensures 0.0 <= r <= (n - 1) as real
  {
    RankBounds((n - 1) as real, p);
    (n - 1) as real * (p / 100.0)
  }

  /** The value between the sample at the truncated rank and the next one, if there is one. */
  function BetweenFloorAndNext(s: seq<real>, rank: real): real
    requires 0.0 <= rank <= (|s| - 1) as real
  {
    var lower := rank.Floor;
    var upper := Min(lower + 1, |s| - 1);
    if lower == upper then s[lower] else s[lower] + (s[upper] - s[lower]) * (rank - lower as real)
  }

  /** The percentile of the benchmark worker. */
  function WorkerPercentile(values: seq<real>, p: real, minSamples: nat): Option<real>
    requires 0.0 <= p <= 100.0 && minSamples >= 1
  {
    if |values| < minSamples then None
    else
      var ordered := Sorted(values);
      SortedHasLength(values);
      Some(BetweenFloorAndNext(ordered, WorkerRank(|ordered|, p)))
  }

  lemma RankBounds(m: real, p: real)
    requires m >= 0.0 && 0.0 <= p <= 100.0
    ensures 0.0 <= m * p / 100.0 <= m && m * (p / 100.0) == m * p / 100.0
  {
    ScaleOrder(m, 0.0, p);
    ScaleOrder(m, p, 100.0);
    assert m * (p / 100.0) * 100.0 == m * (p / 100.0 * 100.0) == m * p;
  }

  lemma ScaleOrder(m: real, x: real, y: real)
    requires m >= 0.0 && x <= y
    ensures m * x <= m * y
  {
    assert m * (y - x) >= 0.0;
    assert m * (y - x) == m * y - m * x;
  }

  // ---------------------------------------------------------------- sorting

  lemma SortedIsSorted(s: seq<real>)
    ensures multiset(Sorted(s)) == multiset(s) && Ascending(Sorted(s))
  {
    Sorting.SortSorts(AtMost, s);
    assert forall i, j | 0 <= i < j < |Sorted(s)| :: AtMost(Sorted(s)[i], Sorted(s)[j]);
  }

  lemma SortedHasLength(s: seq<real>)
    ensures |Sorted(s)| == |s|
  {
    Sorting.SortSorts(AtMost, s);
  }

  lemma LastBounds(a: seq<real>, b: seq<real>)
    requires Ascending(a) && a != [] && b != [] && multiset(a) == multiset(b)
    ensures b[|b| - 1] <= a[|a| - 1]
  {
    var y := b[|b| - 1];
    assert y in multiset(b);
    assert y in a;
  }

  lemma MultisetOfFront(a: seq<real>)
    requires a != []
    ensures multiset(a[..|a| - 1]) == multiset(a) - multiset{a[|a| - 1]}
  {
    assert a == a[..|a| - 1] + [a[|a| - 1]];
  }

  lemma SameLength(a: seq<real>, b: seq<real>)
    requires multiset(a) == multiset(b)
    ensures |a| == |b|
  {
    assert |a| == |multiset(a)| == |multiset(b)| == |b|;
  }

  /** An ascending list is determined by what it holds. */
  lemma {:induction false} AscendingIsUnique(a: seq<real>, b: seq<real>)
    requires Ascending(a) && Ascending(b) && multiset(a) == multiset(b)
    ensures a == b
  {
    SameLength(a, b);
    if a != [] {
      LastBounds(a, b);
      LastBounds(b, a);
      MultisetOfFront(a);
      MultisetOfFront(b);
      AscendingIsUnique(a[..|a| - 1], b[..|b| - 1]);
      assert a == a[..|a| - 1] + [a[|a| - 1]] && b == b[..|b| - 1] + [b[|b| - 1]];
    }
  }

  // ----------------------------------------------------------- interpolation

  /** The sample at a fractional position, on the line between its two neighbours. */
  function At(s: seq<real>, r: real): real
    requires 0.0 <= r <= (|s| - 1) as real
  {
    var i := r.Floor;
    if i == |s| - 1 then s[i] else s[i] + (s[i + 1] - s[i]) * (r - i as real)
  }

  lemma FloorAndCeiling(s: seq<real>, rank: real)
    requires 0.0 <= rank <= (|s| - 1) as real
    ensures BetweenFloorAndCeiling(s, rank) == At(s, rank)
  {
    var i := rank.Floor;
    if rank == i as real {
      assert Ceiling(rank) == i;
      if i < |s| - 1 {
        TimesZero(s[i + 1] - s[i]);
      }
    } else {
      assert Ceiling(rank) == i + 1;
    }
  }

  lemma TimesZero(d: real)
    ensures d * 0.0 == 0.0
  {}

  lemma RanksAgree(n: nat, p: real)
    requires n >= 1 && 0.0 <= p <= 100.0
    ensures WorkerRank(n, p) == Rank(n, p)
  {
    RankBounds((n - 1) as real, p);
  }

  /** The percentile is interpolation at the rank of the sorted samples. */
  lemma PercentileIsAt(values: seq<real>, p: real)
    requires values != [] && 0.0 <= p <= 100.0
    ensures |Sorted(values)| == |values|
    ensures Percentile(values, p) == Some(At(Sorted(values), Rank(|values|, p)))
  {
    hide Sorted;
    SortedHasLength(values);
    var s, rank := Sorted(values), Rank(|values|, p);
    FloorAndCeiling(s, rank);
    if |s| == 1 {
      assert rank == 0.0;
    }
  }

  /** The two implementations agree on every list of samples and every percentage. */
  lemma ImplementationsAgree(values: seq<real>, p: real, minSamples: nat)
    requires 0.0 <= p <= 100.0 && minSamples >= 1
    ensures WorkerPercentile(values, p, minSamples) == if |values| < minSamples then None else Percentile(values, p)
  {
    hide Sorted, Rank, WorkerRank;
    if |values| >= minSamples {
      PercentileIsAt(values, p);
      RanksAgree(|values|, p);
    }
  }

  lemma Between(a: real, b: real, w: real)
    requires a <= b && 0.0 <= w <= 1.0
    ensures a <= a + (b - a) * w <= b
  {
    ScaleOrder(b - a, 0.0, w);
    ScaleOrder(b - a, w, 1.0);
  }

  lemma AtIsBetween(s: seq<real>, r: real)
    requires Ascending(s) && 0.0 <= r <= (|s| - 1) as real
    ensures s[r.Floor] <= At(s, r) <= s[if r.Floor == |s| - 1 then r.Floor else r.Floor + 1]
  {
    var i := r.Floor;
    if i < |s| - 1 {
      Between(s[i], s[i + 1], r - i as real);
    }
  }

  lemma SameLine(a: real, d: real, x: real, y: real)
    requires d >= 0.0 && x <= y
    ensures a + d * x <= a + d * y
  {
    ScaleOrder(d, x, y);
  }

  lemma RankIsMonotone(n: nat, p: real, q: real)
    requires n >= 1 && 0.0 <= p <= q <= 100.0
    ensures Rank(n, p) <= Rank(n, q)
  {
    ScaleOrder((n - 1) as real, p, q);
  }

  lemma AtInCell(s: seq<real>, r: real, i: nat)
    requires 0.0 <= r <= (|s| - 1) as real && r.Floor == i < |s| - 1
    ensures At(s, r) == s[i] + (s[i + 1] - s[i]) * (r - i as real)
  {}

  lemma AtInSameCell(s: seq<real>, q: real, r: real, i: nat)
    requires Ascending(s) && 0.0 <= q <= r <= (|s| - 1) as real && q.Floor == r.Floor == i < |s| - 1
    ensures At(s, q) <= At(s, r)
  {
    hide At;
    AtInCell(s, q, i);
    AtInCell(s, r, i);
    var a, d, x, y := s[i], s[i + 1] - s[i], q - i as real, r - i as real;
    SameLine(a, d, x, y);
    assert At(s, q) == a + d * x;
    assert At(s, r) == a + d * y;
  }

  lemma AtIsMonotone(s: seq<real>, q: real, r: real)
    requires Ascending(s) && 0.0 <= q <= r <= (|s| - 1) as real
    ensures At(s, q) <= At(s, r)
  {
    hide At;
    var i, j := q.Floor, r.Floor;
    if i == j && i < |s| - 1 {
      AtInSameCell(s, q, r, i);
    } else if i == j {
      assert q == r == i as real;
    } else {
      AtIsBetween(s, q);
      AtIsBetween(s, r);
    }
  }

  // ----------------------------------------------------------- main results

  /** The order of the samples does not matter. */
  lemma PercentileIgnoresOrder(a: seq<real>, b: seq<real>, p: real)
    requires multiset(a) == multiset(b) && 0.0 <= p <= 100.0
    ensures Percentile(a, p) == Percentile(b, p)
  {
    hide Sorted, BetweenFloorAndCeiling, Rank;
    SortedIsSorted(a);
    SortedIsSorted(b);
    AscendingIsUnique(Sorted(a), Sorted(b));
    assert |multiset(a)| == |multiset(b)|;
  }

  /** A higher percentage never gives a lower value. */
  lemma PercentileIsMonotone(values: seq<real>, p: real, q: real)
    requires values != [] && 0.0 <= p <= q <= 100.0
    ensures Percentile(values, p).Some? && Percentile(values, q).Some?
    ensures Percentile(values, p).value <= Percentile(values, q).value
  {
    hide Sorted, At, Percentile;
    PercentileIsAt(values, p);
    PercentileIsAt(values, q);
    SortedIsSorted(values);
    RankIsMonotone(|values|, p, q);
    hide Rank;
    AtIsMonotone(Sorted(values), Rank(|values|, p), Rank(|values|, q));
  }

  ghost predicate Within(s: seq<real>, low: real, high: real) {
    forall i | 0 <= i < |s| :: low <= s[i] <= high
  }

  /** A percentile lies between any bounds of the samples. */
  lemma PercentileIsWithin(values: seq<real>, p: real, low: real, high: real)
    requires values != [] && 0.0 <= p <= 100.0 && Within(values, low, high)
    ensures Percentile(values, p).Some? && low <= Percentile(values, p).value <= high
  {
    hide Sorted, At, Percentile, Rank;
    PercentileIsAt(values, p);
    SortedIsSorted(values);
    var s := Sorted(values);
    forall i | 0 <= i < |s| ensures low <= s[i] <= high {
      assert s[i] in multiset(s);
      assert s[i] in values;
    }
    AtIsBetween(s, Rank(|values|, p));
  }

  // --------------------------------------------------------------- bootstrap

  function Total(s: seq<real>): real {
    if s == [] then 0.0 else Total(s[..|s| - 1]) + s[|s| - 1]
  }

  function Mean(s: seq<real>): real
    requires s != []
  {
    Total(s) / |s| as real
  }

  lemma OneMoreShare(x: real, m: real)
    ensures x * (m + 1.0) == x * m + x
  {}

  lemma {:induction false} TotalIsWithin(s: seq<real>, low: real, high: real)
    requires Within(s, low, high)
    ensures low * |s| as real <= Total(s) <= high * |s| as real
  {
    if s != [] {
      TotalIsWithin(s[..|s| - 1], low, high);
      var m := (|s| - 1) as real;
      assert |s| as real == m + 1.0;
      OneMoreShare(low, m);
      OneMoreShare(high, m);
    }
  }

  lemma MeanIsWithin(s: seq<real>, low: real, high: real)
    requires s != [] && Within(s, low, high)
    ensures low <= Mean(s) <= high
  {
    TotalIsWithin(s, low, high);
    var n := |s| as real;
    var mean := Total(s) / n;
    assert mean * n == Total(s);
    CancelScale(n, low, mean);
    CancelScale(n, mean, high);
  }

  lemma StrictScale(n: real, x: real, y: real)
    requires n > 0.0 && x < y
    ensures x * n < y * n
  {
    assert (y - x) * n > 0.0;
  }

  lemma CancelScale(n: real, x: real, y: real)
    requires n > 0.0 && x * n <= y * n
    ensures x <= y
  {
    if y < x {
      StrictScale(n, y, x);
    }
  }

  /** One resampling: as many draws as there are samples, each of them a sample. */
  ghost predicate IsDraw(draw: seq<real>, values: seq<real>) {
    |draw| == |values| && forall i | 0 <= i < |draw| :: draw[i] in values
  }

  function Means(draws: seq<seq<real>>): seq<real>
    requires forall i | 0 <= i < |draws| :: draws[i] != []
  {
    seq(|draws|, i requires 0 <= i < |draws| => Mean(draws[i]))
  }

  /** The interval between the percentiles 2.5 and 97.5 of the resampled means. */
  function BootstrapInterval(values: seq<real>, draws: seq<seq<real>>): (real, real)
    requires values != [] && draws != [] && forall i | 0 <= i < |draws| :: draws[i] != []
  {
    if |values| == 1 then (values[0], values[0])
    else
      PercentileIsAt(Means(draws), 2.5);
      PercentileIsAt(Means(draws), 97.5);
      (Percentile(Means(draws), 2.5).value, Percentile(Means(draws), 97.5).value)
  }

  /** What the interval is: a single value stands for itself, else the percentiles 2.5 and 97.5 of
      the means of the draws. */
  lemma BootstrapIs(values: seq<real>, draws: seq<seq<real>>)
    requires values != [] && draws != [] && forall i | 0 <= i < |draws| :: draws[i] != []
    ensures var (lower, upper) := BootstrapInterval(values, draws);
            if |values| == 1 then lower == values[0] == upper
            else exists means: seq<real> ::
              && |means| == |draws| && (forall i | 0 <= i < |draws| :: means[i] * |draws[i]| as real == Total(draws[i]))
              && Percentile(means, 2.5) == Some(lower) && Percentile(means, 97.5) == Some(upper)
  {
    hide Percentile, Total, Mean, Sorted;
    var means := Means(draws);
    PercentileIsSome(means, 2.5);
    PercentileIsSome(means, 97.5);
    forall i | 0 <= i < |draws| ensures means[i] * |draws[i]| as real == Total(draws[i]) {
      MeanIs(draws[i]);
    }
  }

  lemma MeanIs(s: seq<real>)
    requires s != []
    ensures Mean(s) * |s| as real == Total(s)
  {
  }

  lemma PercentileIsSome(values: seq<real>, p: real)
    requires 0.0 <= p <= 100.0
    ensures values != [] ==> Percentile(values, p).Some?
  {
    hide BetweenFloorAndCeiling, Sorted;
  }

  lemma {:induction false} TotalAdds(a: seq<real>, b: seq<real>)
    ensures Total(a + b) == Total(a) + Total(b)
    ensures |b| == 1 ==> Total(b) == b[0]
  {
    if b == [] {
      assert a + b == a;
    } else {
      TotalAdds(a, b[..|b| - 1]);
      assert (a + b)[..|a + b| - 1] == a + b[..|b| - 1];
    }
  }

  /** Whatever the resampling drew, the interval is ordered and stays between the smallest and
      the largest sample, and so does the mean of the samples. */
  lemma BootstrapIsWithin(values: seq<real>, draws: seq<seq<real>>, low: real, high: real)
    requires values != [] && draws != [] && Within(values, low, high)
    requires forall i | 0 <= i < |draws| :: draws[i] != [] && IsDraw(draws[i], values)
    ensures var (lower, upper) := BootstrapInterval(values, draws); low <= lower <= upper <= high
    ensures low <= Mean(values) <= high
  {
    MeanIsWithin(values, low, high);
    var means := Means(draws);
    forall i | 0 <= i < |means| ensures low <= means[i] <= high {
      forall k | 0 <= k < |draws[i]| ensures low <= draws[i][k] <= high {
        assert draws[i][k] in values;
      }
      MeanIsWithin(draws[i], low, high);
    }
    PercentileIsWithin(means, 2.5, low, high);
    PercentileIsWithin(means, 97.5, low, high);
    PercentileIsMonotone(means, 2.5, 97.5);
    assert values[0] in values;
  }
}
