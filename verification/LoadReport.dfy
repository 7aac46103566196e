/**
 The load generator's report: the in-place quicksort, the percentile rule and the statistics.
 Round-trip times are reals.
 */
module Statistics {

  ghost predicate Sorted(s: seq<real>) {
    forall i, j :: 0 <= i < j < |s| ==> s[i] <= s[j]
  }

  function Insert(x: real, s: seq<real>): seq<real> {
    if s == [] || x <= s[0] then [x] + s else [s[0]] + Insert(x, s[1..])
  }

  /** The reference sort. */
  function SortOf(s: seq<real>): seq<real> {
    if s == [] then [] else Insert(s[0], SortOf(s[1..]))
  }

  lemma {:induction false} InsertAdds(x: real, s: seq<real>)
    ensures multiset(Insert(x, s)) == multiset(s) + multiset{x}
    decreases |s|
  {
    if s != [] {
      assert s == [s[0]] + s[1..];
      if x > s[0] {
        InsertAdds(x, s[1..]);
      }
    }
  }

  lemma SameMembers(s: seq<real>, t: seq<real>, x: real)
    requires multiset(s) == multiset(t)
    ensures x in s <==> x in t
  {
    assert x in s <==> x in multiset(s);
    assert x in t <==> x in multiset(t);
  }

  lemma SortedCons(x: real, s: seq<real>)
    requires Sorted(s) && forall y :: y in s ==> x <= y
    ensures Sorted([x] + s)
  {
    var r := [x] + s;
    forall i, j | 0 <= i < j < |r| ensures r[i] <= r[j] {
      assert r[j] == s[j - 1] && s[j - 1] in s;
      assert i > 0 ==> r[i] == s[i - 1];
    }
  }

  lemma SortedTail(s: seq<real>)
    requires Sorted(s) && s != []
    ensures Sorted(s[1..]) && forall y :: y in s ==> s[0] <= y
  {
  }

  lemma {:induction false} InsertSorts(x: real, s: seq<real>)
    requires Sorted(s)
    ensures Sorted(Insert(x, s))
    decreases |s|
  {
    if s == [] {
    } else if x <= s[0] {
      SortedTail(s);
      SortedCons(x, s);
    } else {
      SortedTail(s);
      InsertSorts(x, s[1..]);
      forall y | y in Insert(x, s[1..]) ensures s[0] <= y {
        InsertAdds(x, s[1..]);
        SameMembers(Insert(x, s[1..]), s[1..] + [x], y);
      }
      SortedCons(s[0], Insert(x, s[1..]));
    }
  }

  lemma {:induction false} SortOfSorts(s: seq<real>)
    ensures Sorted(SortOf(s)) && multiset(SortOf(s)) == multiset(s) && |SortOf(s)| == |s|
    decreases |s|
  {
    if s != [] {
      SortOfSorts(s[1..]);
      InsertSorts(s[0], SortOf(s[1..]));
      InsertAdds(s[0], SortOf(s[1..]));
      assert s == [s[0]] + s[1..];
      assert |multiset(SortOf(s))| == |multiset(s)|;
    }
  }

  lemma {:induction false} SortedIsUnique(s: seq<real>, t: seq<real>)
    requires Sorted(s) && Sorted(t) && multiset(s) == multiset(t)
    ensures s == t
    decreases |s|
  {
    hide Sorted;
    assert |multiset(s)| == |multiset(t)|;
    if s != [] {
      SortedTail(s);
      SortedTail(t);
      SameLeast(s, t);
      HeadAndTail(s);
      HeadAndTail(t);
      SortedIsUnique(s[1..], t[1..]);
    }
  }

  lemma SameLeast(s: seq<real>, t: seq<real>)
    requires s != [] && t != [] && multiset(s) == multiset(t)
    requires (forall y :: y in s ==> s[0] <= y) && (forall y :: y in t ==> t[0] <= y)
    ensures s[0] == t[0]
  {
    SameMembers(s, t, s[0]);
    SameMembers(s, t, t[0]);
  }

  lemma HeadAndTail(s: seq<real>)
    requires s != []
    ensures s == [s[0]] + s[1..] && multiset(s[1..]) == multiset(s) - multiset{s[0]}
  {
    assert s == [s[0]] + s[1..];
  }

  // ---------------------------------------------------------------------------
  // Percentiles
  // ---------------------------------------------------------------------------

  /** Conversion of a float to an integer drops the fraction. */
  function Truncate(x: real): int {
    if x >= 0.0 then x.Floor else -((-x).Floor)
  }

  function Index(n: nat, p: int): (r: nat)
    requires n > 0
    ensures r < n
  {
    var idx := Truncate(p as real / 100.0 * (n - 1) as real);
    if idx < 0 then 0 else if idx >= n then n - 1 else idx
  }

  function Percentile(sorted: seq<real>, p: int): real {
    if sorted == [] then 0.0 else sorted[Index(|sorted|, p)]
  }

  lemma TruncateIsMonotone(x: real, y: real)
    requires x <= y
    ensures Truncate(x) <= Truncate(y)
  {
  }

  lemma ScaledIsMonotone(n: nat, p: int, q: int)
    requires n > 0 && p <= q
    ensures p as real / 100.0 * (n - 1) as real <= q as real / 100.0 * (n - 1) as real
  {
    var m := (n - 1) as real;
    var d := (q - p) as real / 100.0;
    assert q as real / 100.0 == p as real / 100.0 + d;
    assert d * m >= 0.0;
  }

  lemma IndexIsMonotone(n: nat, p: int, q: int)
    requires n > 0 && p <= q
    ensures Index(n, p) <= Index(n, q)
  {
    hide Truncate;
    ScaledIsMonotone(n, p, q);
    TruncateIsMonotone(p as real / 100.0 * (n - 1) as real, q as real / 100.0 * (n - 1) as real);
  }

  lemma IndexAtEnds(n: nat, p: int)
    requires n > 0
    ensures p <= 0 ==> Index(n, p) == 0
    ensures p >= 100 ==> Index(n, p) == n - 1
  {
    if p <= 0 {
      ScaledIsMonotone(n, p, 0);
    } else if p >= 100 {
      ScaledIsMonotone(n, 100, p);
      ScaledIsHundredth(100, n - 1);
      TruncateIsMonotone((n - 1) as real, p as real / 100.0 * (n - 1) as real);
    }
  }

  /** Between 0 and 100 percent the index is the nearest rank from below; outside it is the first or the last. */
  lemma IndexIsNearestRank(n: nat, p: int)
    requires n > 0
    ensures 0 <= p <= 100 ==> Index(n, p) == p * (n - 1) / 100
    ensures p <= 0 ==> Index(n, p) == 0
    ensures p >= 100 ==> Index(n, p) == n - 1
  {
    IndexAtEnds(n, p);
    if 0 <= p <= 100 {
      var k := p * (n - 1);
      ScaledIsHundredth(p, n - 1);
      assert k <= 100 * (n - 1) by {
        ProductBound(p, 100, n - 1);
      }
      assert (k as real / 100.0).Floor == k / 100;
    }
  }

  lemma ScaledIsHundredth(p: int, m: int)
    ensures p as real / 100.0 * m as real == (p * m) as real / 100.0
  {
    assert p as real * m as real == (p * m) as real;
  }

  lemma ProductBound(p: int, q: int, m: nat)
    requires 0 <= p <= q
    ensures 0 <= p * m <= q * m
  {
  }

  lemma PercentileIsMonotone(sorted: seq<real>, p: int, q: int)
    requires Sorted(sorted) && p <= q
    ensures Percentile(sorted, p) <= Percentile(sorted, q)
  {
    if sorted != [] {
      IndexIsMonotone(|sorted|, p, q);
    }
  }

  // ---------------------------------------------------------------------------
  // Statistics
  // ---------------------------------------------------------------------------

  datatype Stats = Stats(min: int, max: int, avg: real, p50: int, p90: int)

  function Sum(s: seq<real>): real {
    if s == [] then 0.0 else Sum(s[..|s| - 1]) + s[|s| - 1]
  }

  function Average(s: seq<real>): real
    requires s != []
  {
    Sum(s) / |s| as real
  }

  function StatsOf(sorted: seq<real>): Stats
    requires sorted != []
  {
    Stats(Truncate(sorted[0]), Truncate(sorted[|sorted| - 1]), Average(sorted),
          Truncate(Percentile(sorted, 50)), Truncate(Percentile(sorted, 90)))
  }

  lemma {:induction false} SumIsBounded(s: seq<real>, low: real, high: real)
    requires forall k :: 0 <= k < |s| ==> low <= s[k] <= high
    ensures |s| as real * low <= Sum(s) <= |s| as real * high
    decreases |s|
  {
    if s != [] {
      SumIsBounded(s[..|s| - 1], low, high);
    }
  }

  lemma DividedBound(sum: real, n: real, low: real)
    requires n > 0.0 && n * low <= sum
    ensures low <= sum / n
  {
    var extra := sum - n * low;
    assert extra / n >= 0.0;
    assert sum / n == low + extra / n;
  }

  lemma AverageIsBounded(sum: real, n: nat, low: real, high: real)
    requires n > 0 && n as real * low <= sum <= n as real * high
    ensures low <= sum / n as real <= high
  {
    DividedBound(sum, n as real, low);
    DividedBound(-sum, n as real, -high);
    assert -sum / n as real == -(sum / n as real);
  }

  lemma PercentilesAreOrdered(sorted: seq<real>)
    requires Sorted(sorted) && sorted != []
    ensures sorted[0] <= Percentile(sorted, 50) <= Percentile(sorted, 90) <= sorted[|sorted| - 1]
  {
    PercentileIsMonotone(sorted, 50, 90);
  }

  lemma AverageIsBetween(sorted: seq<real>)
    requires Sorted(sorted) && sorted != []
    ensures sorted[0] <= Average(sorted) <= sorted[|sorted| - 1]
  {
    BoundedAverage(sorted, sorted[0], sorted[|sorted| - 1]);
  }

  lemma BoundedAverage(s: seq<real>, low: real, high: real)
    requires s != [] && forall k :: 0 <= k < |s| ==> low <= s[k] <= high
    ensures low <= Average(s) <= high
  {
    SumIsBounded(s, low, high);
    AverageIsBounded(Sum(s), |s|, low, high);
  }

  /** Minimum, median, 90th percentile and maximum come in that order, and the average lies between the extremes. */
  lemma StatisticsAreOrdered(times: seq<real>)
    requires times != []
    ensures var sorted := SortOf(times);
      && sorted != []
      && var s := StatsOf(sorted);
         && s.min <= s.p50 <= s.p90 <= s.max
         && sorted[0] <= s.avg <= sorted[|sorted| - 1] && s.min <= Truncate(s.avg) <= s.max
  {
    SortOfSorts(times);
    var sorted := SortOf(times);
    PercentilesAreOrdered(sorted);
    AverageIsBetween(sorted);
    var low, high, avg := sorted[0], sorted[|sorted| - 1], Average(sorted);
    TruncateIsMonotone(low, Percentile(sorted, 50));
    TruncateIsMonotone(Percentile(sorted, 50), Percentile(sorted, 90));
    TruncateIsMonotone(Percentile(sorted, 90), high);
    TruncateIsMonotone(low, avg);
    TruncateIsMonotone(avg, high);
  }

  /** Dropping the fraction of a number rounds it towards zero. */
  lemma TruncateIs(x: real)
    ensures x >= 0.0 ==> Truncate(x) as real <= x < (Truncate(x) + 1) as real
    ensures x <= 0.0 ==> (Truncate(x) - 1) as real < x <= Truncate(x) as real
  {
  }

  /** The sum adds up over consecutive measurements, and one measurement adds itself. */
  lemma {:induction false} SumAdds(a: seq<real>, b: seq<real>, x: real)
    ensures Sum(a + b) == Sum(a) + Sum(b) && Sum([x]) == x
    decreases |b|
  {
    if b == [] {
      assert a + b == a;
    } else {
      var n := |b| - 1;
      assert (a + b)[..|a + b| - 1] == a + b[..n];
      SumAdds(a, b[..n], x);
    }
  }

  lemma {:induction false} InsertSums(x: real, s: seq<real>)
    ensures Sum(Insert(x, s)) == Sum(s) + x
    decreases |s|
  {
    if s == [] || x <= s[0] {
      SumAdds([x], s, x);
    } else {
      InsertSums(x, s[1..]);
      SumAdds([s[0]], Insert(x, s[1..]), s[0]);
      SumAdds([s[0]], s[1..], s[0]);
      assert s == [s[0]] + s[1..];
    }
  }

  lemma {:induction false} SortSums(s: seq<real>)
    ensures Sum(SortOf(s)) == Sum(s)
    decreases |s|
  {
    if s != [] {
      SortSums(s[1..]);
      InsertSums(s[0], SortOf(s[1..]));
      SumAdds([s[0]], s[1..], s[0]);
      assert s == [s[0]] + s[1..];
    }
  }

  /** The average is that of the measurements, and the percentiles are the elements at half and at nine tenths of the way, rounded down. */
  lemma StatisticsExactly(times: seq<real>)
    requires times != []
    ensures var sorted := SortOf(times); var n := |times|;
      && |sorted| == n && var s := StatsOf(sorted);
         && s.min == Truncate(sorted[0]) && s.max == Truncate(sorted[n - 1]) && s.avg * n as real == Sum(times)
         && 50 * (n - 1) / 100 < n && 90 * (n - 1) / 100 < n
         && s.p50 == Truncate(sorted[50 * (n - 1) / 100]) && s.p90 == Truncate(sorted[90 * (n - 1) / 100])
  {
    hide Truncate, Index, Sum, Average, SortOf, Sorted;
    SortOfSorts(times);
    SortSums(times);
    IndexIsNearestRank(|times|, 50);
    IndexIsNearestRank(|times|, 90);
    RankInRange(|times|);
    AverageTimesCount(SortOf(times));
  }

  lemma RankInRange(n: nat)
    requires n > 0
    ensures 0 <= 50 * (n - 1) / 100 < n && 0 <= 90 * (n - 1) / 100 < n
  {
  }

  lemma AverageTimesCount(s: seq<real>)
    requires s != []
    ensures Average(s) * |s| as real == Sum(s)
  {
  }

  /** The extremes are the true extremes of the measurements. */
  lemma ExtremesAreExact(times: seq<real>)
    requires times != []
    ensures var sorted := SortOf(times);
      && sorted != [] && sorted[0] in times && sorted[|sorted| - 1] in times
      && forall x :: x in times ==> sorted[0] <= x <= sorted[|sorted| - 1]
  {
    SortOfSorts(times);
    var sorted := SortOf(times);
    assert sorted[0] in multiset(times) && sorted[|sorted| - 1] in multiset(times);
    forall x | x in times ensures sorted[0] <= x <= sorted[|sorted| - 1] {
      assert x in multiset(sorted);
    }
  }

  /** The order in which measurements arrive does not matter. */
  lemma StatisticsIgnoreOrder(xs: seq<real>, ys: seq<real>)
    requires multiset(xs) == multiset(ys)
    ensures SortOf(xs) == SortOf(ys)
    ensures xs != [] ==> SortOf(xs) != [] && StatsOf(SortOf(xs)) == StatsOf(SortOf(ys))
  {
    SortOfSorts(xs);
    SortOfSorts(ys);
    SortedIsUnique(SortOf(xs), SortOf(ys));
  }
}

module LoadReport {
  import opened Statistics

  method Swap(a: array<real>, i: nat, j: nat)
    requires i < a.Length && j < a.Length
    modifies a
    ensures a[i] == old(a[j]) && a[j] == old(a[i])
    ensures forall k :: 0 <= k < a.Length && k != i && k != j ==> a[k] == old(a[k])
    ensures multiset(a[..]) == multiset(old(a[..]))
  {
    a[i], a[j] := a[j], a[i];
  }

  /** Only the elements from `lo` up to `hi` moved. */
  twostate predicate OnlyMoved(a: array<real>, lo: nat, hi: nat)
    requires lo <= hi <= a.Length
    reads a
  {
    && multiset(a[..]) == multiset(old(a[..]))
    && forall k :: 0 <= k < a.Length && !(lo <= k < hi) ==> a[k] == old(a[k])
  }

  lemma SegmentMultiset(s: seq<real>, t: seq<real>, lo: nat, hi: nat)
    requires lo <= hi <= |s| && |t| == |s| && multiset(s) == multiset(t) && s[..lo] == t[..lo] && s[hi..] == t[hi..]
    ensures multiset(s[lo..hi]) == multiset(t[lo..hi])
  {
    ThreeParts(s, lo, hi);
    ThreeParts(t, lo, hi);
  }

  lemma ThreeParts(s: seq<real>, lo: nat, hi: nat)
    requires lo <= hi <= |s|
    ensures multiset(s[lo..hi]) == multiset(s) - multiset(s[..lo]) - multiset(s[hi..])
  {
    assert s == s[..lo] + (s[lo..hi] + s[hi..]);
    assert multiset(s[lo..hi] + s[hi..]) == multiset(s[lo..hi]) + multiset(s[hi..]);
  }

  /**
   The first part of a sorting step, with any element as the pivot: smaller and equal elements end
   up before position `j`, greater ones behind it.
   */
  method Partition(a: array<real>, lo: nat, hi: nat) returns (j: nat)
    requires lo < hi <= a.Length
    modifies a
    ensures lo <= j < hi && OnlyMoved(a, lo, hi)
    ensures forall k :: lo <= k < j ==> a[k] <= a[j]
    ensures forall k :: j < k < hi ==> a[j] < a[k]
  {
    var pivotIdx :| lo <= pivotIdx < hi;
    Swap(a, lo, pivotIdx);
    var pivot := a[lo];
    var i := lo + 1;
    j := hi - 1;
    while i <= j
      invariant lo < i <= j + 1 <= hi && a[lo] == pivot && OnlyMoved(a, lo, hi)
      invariant forall k :: lo <= k < i ==> a[k] <= pivot
      invariant forall k :: j < k < hi ==> a[k] > pivot
      decreases j + 1 - i, if i <= j && a[i] > pivot && a[j] <= pivot then 1 else 0
    {
      while i <= j && a[i] <= pivot
        invariant lo < i <= j + 1
        invariant forall k :: lo <= k < i ==> a[k] <= pivot
      {
        i := i + 1;
      }
      while i <= j && a[j] > pivot
        invariant lo < i <= j + 1 <= hi
        invariant forall k :: j < k < hi ==> a[k] > pivot
      {
        j := j - 1;
      }
      if i < j {
        Swap(a, i, j);
      }
    }
    Swap(a, lo, j);
  }

  lemma SortedAround(left: seq<real>, pivot: real, right: seq<real>)
    requires Sorted(left) && Sorted(right)
    requires forall k :: 0 <= k < |left| ==> left[k] <= pivot
    requires forall k :: 0 <= k < |right| ==> pivot < right[k]
    ensures Sorted(left + [pivot] + right)
  {
  }

  /** Sorting both sides of the pivot sorts the whole. */
  lemma SidesMakeSorted(left: seq<real>, pivot: real, right: seq<real>)
    requires forall k :: 0 <= k < |left| ==> left[k] <= pivot
    requires forall k :: 0 <= k < |right| ==> pivot < right[k]
    ensures Sorted(SortOf(left) + [pivot] + SortOf(right))
  {
    SortOfSorts(left);
    SortOfSorts(right);
    forall k | 0 <= k < |SortOf(left)| ensures SortOf(left)[k] <= pivot {
      SameMembers(left, SortOf(left), SortOf(left)[k]);
    }
    forall k | 0 <= k < |SortOf(right)| ensures pivot < SortOf(right)[k] {
      SameMembers(right, SortOf(right), SortOf(right)[k]);
    }
    SortedAround(SortOf(left), pivot, SortOf(right));
  }

  lemma AroundPivot(s: seq<real>, lo: nat, j: nat, hi: nat)
    requires lo <= j < hi <= |s|
    ensures s[lo..hi] == s[lo..j] + [s[j]] + s[j + 1..hi]
  {
  }

  lemma SortedPermutation(s: seq<real>, t: seq<real>, lo: nat, hi: nat)
    requires lo <= hi <= |s| && |t| == |s| && multiset(s) == multiset(t)
    requires forall k :: 0 <= k < |s| && !(lo <= k < hi) ==> s[k] == t[k]
    requires Sorted(t[lo..hi])
    ensures t[lo..hi] == SortOf(s[lo..hi])
  {
    SegmentMultiset(s, t, lo, hi);
    SortOfSorts(s[lo..hi]);
    SortedIsUnique(t[lo..hi], SortOf(s[lo..hi]));
  }

  lemma ShortIsSorted(s: seq<real>)
    requires |s| < 2
    ensures SortOf(s) == s
  {
  }

  method QuickSort(a: array<real>, lo: nat, hi: nat)
    requires lo <= hi <= a.Length
    modifies a
    ensures OnlyMoved(a, lo, hi) && a[lo..hi] == SortOf(old(a[lo..hi]))
    decreases hi - lo
  {
    hide SortOf, Sorted;
    if hi - lo < 2 {
      ShortIsSorted(a[lo..hi]);
      return;
    }
    var j := Partition(a, lo, hi);
    ghost var left, right, pivot := a[lo..j], a[j + 1..hi], a[j];
    SidesMakeSorted(left, a[j], right);
    QuickSort(a, lo, j);
    assert a[j + 1..hi] == right;
    QuickSort(a, j + 1, hi);
    assert a[lo..j] == SortOf(left);
    AroundPivot(a[..], lo, j, hi);
    assert a[lo..hi] == SortOf(left) + [pivot] + SortOf(right);
    SortedPermutation(old(a[..]), a[..], lo, hi);
  }

  method SumUp(a: array<real>) returns (sum: real)
    ensures sum == Sum(a[..])
  {
    sum := 0.0;
    for i := 0 to a.Length
      invariant sum == Sum(a[..i])
    {
      assert a[..i + 1][..i] == a[..i];
      sum := sum + a[i];
    }
    assert a[..a.Length] == a[..];
  }

  method SortedCopy(a: array<real>) returns (sorted: array<real>)
    ensures fresh(sorted) && sorted[..] == SortOf(a[..])
  {
    var n := a.Length;
    sorted := new real[n];
    for i := 0 to n
      invariant sorted[..i] == a[..i]
    {
      sorted[i] := a[i];
    }
    assert sorted[0..n] == a[..];
    QuickSort(sorted, 0, n);
    assert sorted[..] == sorted[0..n];
  }

  class Report {
    var AllRTTMs: array<real>
    var MinRTTMs: int
    var MaxRTTMs: int
    var AvgRTTMs: real
    var P50RTTMs: int
    var P90RTTMs: int

    constructor (times: array<real>)
      ensures AllRTTMs == times && View() == Stats(0, 0, 0.0, 0, 0)
    {
      AllRTTMs := times;
      MinRTTMs, MaxRTTMs, AvgRTTMs, P50RTTMs, P90RTTMs := 0, 0, 0.0, 0, 0;
    }

    function View(): Stats
      reads this
    {
      Stats(MinRTTMs, MaxRTTMs, AvgRTTMs, P50RTTMs, P90RTTMs)
    }

    /** The measurements themselves keep their order: a copy is sorted. */
    method ComputeStats()
      modifies this`MinRTTMs, this`MaxRTTMs, this`AvgRTTMs, this`P50RTTMs, this`P90RTTMs
      ensures AllRTTMs.Length == 0 ==> View() == old(View())
      ensures AllRTTMs.Length > 0 ==>
        var sorted := SortOf(AllRTTMs[..]);
        sorted != [] && View() == StatsOf(sorted)
    {
      var n := AllRTTMs.Length;
      if n == 0 {
        return;
      }
      SortOfSorts(AllRTTMs[..]);
      var sorted := SortedCopy(AllRTTMs);
      MinRTTMs := Truncate(sorted[0]);
      MaxRTTMs := Truncate(sorted[n - 1]);
      var sum := SumUp(sorted);
      AvgRTTMs := sum / n as real;
      P50RTTMs := Truncate(Percentile(sorted[..], 50));
      P90RTTMs := Truncate(Percentile(sorted[..], 90));
    }
  }
}
