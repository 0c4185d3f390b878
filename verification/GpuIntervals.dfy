/** GPU busy time from a trace (mlx-host-validation/scripts/python/phase17_overlap_benchmark.py):
    intervals merged into busy stretches, and the idle gaps between them. Times are in nanoseconds. */
module GpuIntervals {
  import opened Basics
  import Sorting

  datatype Interval = Interval(start: int, end: int)

  /** The order of the sort: by start, then by end. */
  predicate AtMost(a: Interval, b: Interval) {
    a.start < b.start || (a.start == b.start && a.end <= b.end)
  }

  function Sorted(s: seq<Interval>): seq<Interval> {
    Sorting.Sort(AtMost, s)
  }

  ghost predicate ByStart(s: seq<Interval>) {
    forall i, j | 0 <= i <= j < |s| :: s[i].start <= s[j].start
  }

  predicate NonEmpty(s: seq<Interval>) {
    forall i | 0 <= i < |s| :: s[i].start < s[i].end
  }

  predicate Busy(x: Interval, t: int) {
    x.start <= t < x.end
  }

  /** Some interval is running at t. */
  ghost predicate Covered(s: seq<Interval>, t: int) {
    exists i | 0 <= i < |s| :: Busy(s[i], t)
  }

  /** Non-empty intervals in order, with idle time between each and the next. */
  ghost predicate Separated(s: seq<Interval>) {
    && NonEmpty(s)
    && forall i, j | 0 <= i < j < |s| :: s[i].end < s[j].start
  }

  // ----------------------------------------------------------------- sorting

  lemma IsTotalOrder()
    ensures Sorting.TotalOrder(AtMost)
  {}

  lemma SortedIsSorted(s: seq<Interval>)
    ensures ByStart(Sorted(s)) && forall x :: x in Sorted(s) <==> x in s
  {
    hide Sorting.Sort, Sorting.TotalOrder;
    IsTotalOrder();
    Sorting.SortSorts(AtMost, s);
    var r := Sorted(s);
    assert forall i, j | 0 <= i < j < |r| :: AtMost(r[i], r[j]);
    forall x ensures x in Sorted(s) <==> x in s {
      Sorting.SortHas(AtMost, s, x);
    }
  }

  lemma SameIntervalsSameCover(a: seq<Interval>, b: seq<Interval>, t: int)
    requires forall x :: x in a <==> x in b
    ensures Covered(a, t) <==> Covered(b, t)
  {
    if Covered(a, t) {
      var i :| 0 <= i < |a| && Busy(a[i], t);
      assert a[i] in b;
    }
    if Covered(b, t) {
      var i :| 0 <= i < |b| && Busy(b[i], t);
      assert b[i] in a;
    }
  }

  // ----------------------------------------------------------------- merging

  /** What one more interval makes of the merged ones: it extends the last or starts a new one. */
  function Absorb(merged: seq<Interval>, x: Interval): seq<Interval> {
    if merged != [] && x.start <= merged[|merged| - 1].end then
      merged[|merged| - 1 := Interval(merged[|merged| - 1].start, Max(merged[|merged| - 1].end, x.end))]
    else merged + [x]
  }

  lemma CoveredBySnoc(s: seq<Interval>, x: Interval, t: int)
    ensures Covered(s + [x], t) <==> Covered(s, t) || Busy(x, t)
  {
    if Covered(s, t) {
      var i :| 0 <= i < |s| && Busy(s[i], t);
      assert (s + [x])[i] == s[i];
    }
    if Busy(x, t) {
      assert (s + [x])[|s|] == x;
    }
  }

  lemma AbsorbKeepsCover(merged: seq<Interval>, x: Interval, t: int)
    requires Separated(merged) && x.start < x.end && (merged != [] ==> merged[|merged| - 1].start <= x.start)
    ensures Covered(Absorb(merged, x), t) <==> Covered(merged, t) || Busy(x, t)
  {
    if merged != [] && x.start <= merged[|merged| - 1].end {
      var before, last := merged[..|merged| - 1], merged[|merged| - 1];
      var grown := Interval(last.start, Max(last.end, x.end));
      assert merged == before + [last] && Absorb(merged, x) == before + [grown];
      CoveredBySnoc(before, last, t);
      CoveredBySnoc(before, grown, t);
    } else {
      CoveredBySnoc(merged, x, t);
    }
  }

  /** Merges intervals in one pass over them in order, overwriting the end of the last merged
      one while the next begins before it is over. */
  method MergeIntervals(intervals: seq<Interval>) returns (merged: seq<Interval>)
    requires NonEmpty(intervals)
    ensures Separated(merged) && (intervals != [] ==> merged != [])
    ensures forall t :: Covered(merged, t) <==> Covered(intervals, t)
  {
    hide Covered;
    var ordered := Sorted(intervals);
    SortedIsSorted(intervals);
    forall i | 0 <= i < |ordered| ensures ordered[i].start < ordered[i].end {
      assert ordered[i] in intervals;
    }
    merged := [];
    for k := 0 to |ordered|
      invariant Separated(merged) && (k > 0 ==> merged != [])
      invariant merged != [] && k < |ordered| ==> merged[|merged| - 1].start <= ordered[k].start
      invariant forall t :: Covered(merged, t) <==> Covered(ordered[..k], t)
    {
      var x := ordered[k];
      forall t ensures Covered(Absorb(merged, x), t) <==> Covered(ordered[..k + 1], t) {
        AbsorbKeepsCover(merged, x, t);
        CoveredBySnoc(ordered[..k], x, t);
        assert ordered[..k + 1] == ordered[..k] + [x];
      }
      ghost var absorbed := Absorb(merged, x);
      if merged != [] && x.start <= merged[|merged| - 1].end {
        merged := merged[|merged| - 1 := Interval(merged[|merged| - 1].start, Max(merged[|merged| - 1].end, x.end))];
      } else {
        merged := merged + [x];
      }
      assert merged == absorbed;
    }
    assert ordered[..|ordered|] == ordered;
    forall t ensures Covered(merged, t) <==> Covered(intervals, t) {
      SameIntervalsSameCover(ordered, intervals, t);
    }
    if intervals != [] {
      assert intervals[0] in ordered;
    }
  }

  // ------------------------------------------------- the merged form is unique

  lemma CoveredByTail(s: seq<Interval>, t: int)
    requires Separated(s) && s != []
    ensures Covered(s[1..], t) <==> Covered(s, t) && t > s[0].end
  {
    if Covered(s[1..], t) {
      var i :| 0 <= i < |s[1..]| && Busy(s[1..][i], t);
      assert s[i + 1] == s[1..][i];
    }
    if Covered(s, t) && t > s[0].end {
      var i :| 0 <= i < |s| && Busy(s[i], t);
      assert s[1..][i - 1] == s[i];
    }
  }

  /** The first busy stretch runs from the first busy instant to the first idle one after it. */
  lemma FirstStretch(s: seq<Interval>, t: int)
    requires Separated(s) && s != []
    ensures Busy(s[0], t) ==> Covered(s, t)
    ensures t < s[0].start || t == s[0].end ==> !Covered(s, t)
  {}

  lemma SameFirst(a: seq<Interval>, b: seq<Interval>)
    requires Separated(a) && Separated(b) && a != [] && b != []
    requires forall t :: Covered(a, t) <==> Covered(b, t)
    ensures a[0] == b[0]
  {
    hide Separated, Covered;
    assert a[0].start < a[0].end && b[0].start < b[0].end by { FirstIsNonEmpty(a); FirstIsNonEmpty(b); }
    FirstStretch(a, a[0].start);
    FirstStretch(b, a[0].start);
    FirstStretch(b, b[0].start);
    FirstStretch(a, b[0].start);
    FirstStretch(a, a[0].end);
    FirstStretch(b, a[0].end);
    FirstStretch(b, b[0].end);
    FirstStretch(a, b[0].end);
  }

  lemma FirstIsNonEmpty(s: seq<Interval>)
    requires Separated(s) && s != []
    ensures s[0].start < s[0].end
  {}

  /** Separated intervals are determined by the instants they cover: any way of merging gives
      the same result, whatever the order and overlap of the input. */
  lemma {:induction false} SeparatedIsUnique(a: seq<Interval>, b: seq<Interval>)
    requires Separated(a) && Separated(b) && forall t :: Covered(a, t) <==> Covered(b, t)
    ensures a == b
  {
    if a == [] || b == [] {
      if a != [] {
        FirstStretch(a, a[0].start);
      }
      if b != [] {
        FirstStretch(b, b[0].start);
      }
    } else {
      SameFirst(a, b);
      forall t ensures Covered(a[1..], t) <==> Covered(b[1..], t) {
        CoveredByTail(a, t);
        CoveredByTail(b, t);
      }
      hide Covered;
      SeparatedIsUnique(a[1..], b[1..]);
      assert a == [a[0]] + a[1..] && b == [b[0]] + b[1..];
    }
  }

  // ------------------------------------------------------------ active and idle

  function ActiveTime(s: seq<Interval>): int {
    if s == [] then 0 else ActiveTime(s[..|s| - 1]) + (s[|s| - 1].end - s[|s| - 1].start)
  }

  /** The idle time between each interval and the next, where there is any. */
  function Gaps(s: seq<Interval>): seq<int> {
    if |s| < 2 then []
    else
      var gap := s[|s| - 1].start - s[|s| - 2].end;
      Gaps(s[..|s| - 1]) + (if gap > 0 then [gap] else [])
  }

  function Total(gaps: seq<int>): int {
    if gaps == [] then 0 else Total(gaps[..|gaps| - 1]) + gaps[|gaps| - 1]
  }

  lemma OneMoreGap(s: seq<Interval>)
    requires Separated(s) && |s| >= 2
    ensures var gap := s[|s| - 1].start - s[|s| - 2].end;
            gap > 0 && Gaps(s) == Gaps(s[..|s| - 1]) + [gap] && Total(Gaps(s)) == Total(Gaps(s[..|s| - 1])) + gap
  {
    var gaps := Gaps(s);
    assert gaps[..|gaps| - 1] == Gaps(s[..|s| - 1]);
  }

  /** Every idle gap is counted, in order. */
  lemma {:induction false} EveryGapIsCounted(s: seq<Interval>, i: nat)
    requires Separated(s) && i < |s| - 1
    ensures |Gaps(s)| == |s| - 1 && Gaps(s)[i] == s[i + 1].start - s[i].end > 0
  {
    hide Gaps, Total, Separated;
    var before := s[..|s| - 1];
    OneMoreGap(s);
    if |before| == 1 {
      NoGapsYet(before);
    } else {
      FrontIsSeparated(s);
      EveryGapIsCounted(before, if i < |s| - 2 then i else 0);
    }
  }

  lemma NoGapsYet(s: seq<Interval>)
    requires |s| == 1
    ensures Gaps(s) == []
  {}

  lemma FrontIsSeparated(s: seq<Interval>)
    requires Separated(s) && s != []
    ensures Separated(s[..|s| - 1])
  {}

  /** Active time and idle gaps add up to the span. */
  lemma {:induction false} ActiveAndIdleMakeTheSpan(s: seq<Interval>)
    requires Separated(s) && s != []
    ensures ActiveTime(s) + Total(Gaps(s)) == s[|s| - 1].end - s[0].start
  {
    var before := s[..|s| - 1];
    if |s| > 1 {
      ActiveAndIdleMakeTheSpan(before);
      OneMoreGap(s);
    } else {
      assert before == [];
    }
  }

  /** How many of the instants low..high are covered. */
  ghost function BusyInstants(s: seq<Interval>, low: int, high: int): nat
    requires low <= high
    decreases high - low
  {
    if low == high then 0 else BusyInstants(s, low, high - 1) + (if Covered(s, high - 1) then 1 else 0)
  }

  lemma {:induction false} BusyInstantsAre(a: seq<Interval>, b: seq<Interval>, low: int, high: int)
    requires low <= high && forall t | low <= t < high :: Covered(a, t) <==> Covered(b, t)
    ensures BusyInstants(a, low, high) == BusyInstants(b, low, high)
    decreases high - low
  {
    if low < high {
      BusyInstantsAre(a, b, low, high - 1);
    }
  }

  lemma {:induction false} BusyInstantsOf(s: seq<Interval>, low: int, mid: int, high: int, busy: bool)
    requires low <= mid <= high && forall t | mid <= t < high :: Covered(s, t) <==> busy
    ensures BusyInstants(s, low, high) == BusyInstants(s, low, mid) + (if busy then high - mid else 0)
    decreases high - mid
  {
    if mid < high {
      BusyInstantsOf(s, low, mid, high - 1, busy);
    }
  }

  /** The active time of the merged intervals is the number of instants at which the trace has
      something running, so no instant is counted twice. */
  lemma {:induction false} ActiveTimeIsBusyTime(s: seq<Interval>)
    requires Separated(s) && s != []
    ensures s[0].start <= s[|s| - 1].end
    ensures ActiveTime(s) == BusyInstants(s, s[0].start, s[|s| - 1].end)
  {
    var last := s[|s| - 1];
    if |s| == 1 {
      OneStretch(s);
    } else {
      var before := s[..|s| - 1];
      ActiveTimeIsBusyTime(before);
      LastStretch(s);
    }
  }

  lemma OneStretch(s: seq<Interval>)
    requires Separated(s) && |s| == 1
    ensures ActiveTime(s) == BusyInstants(s, s[0].start, s[0].end)
  {
    var last := s[0];
    assert forall t | last.start <= t < last.end :: Busy(s[0], t);
    BusyInstantsOf(s, last.start, last.start, last.end, true);
    assert s[..0] == [];
  }

  /** The last interval adds its own instants, and nothing is covered in the gap before it. */
  lemma LastStretch(s: seq<Interval>)
    requires Separated(s) && |s| > 1 && s[0].start <= s[|s| - 2].end
    ensures var before, last := s[..|s| - 1], s[|s| - 1];
            BusyInstants(s, s[0].start, last.end) == BusyInstants(before, s[0].start, s[|s| - 2].end) + (last.end - last.start)
  {
    var before, left, last := s[..|s| - 1], s[|s| - 2], s[|s| - 1];
    forall t ensures Covered(s, t) <==> Covered(before, t) || Busy(last, t) {
      assert s == before + [last];
      CoveredBySnoc(before, last, t);
    }
    hide Covered, BusyInstants;
    assert left.end < last.start < last.end;
    BusyInstantsAre(before, s, s[0].start, left.end);
    BusyInstantsOf(s, s[0].start, left.end, last.start, false);
    BusyInstantsOf(s, s[0].start, last.start, last.end, true);
  }
}
