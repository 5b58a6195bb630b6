/** The bounded sample bag of tools/crypto_latency_harness.py and its order statistics,
    over exact numbers. */
module StageSamples {
  import opened Wrappers

  const LIMIT: nat := 5000

  function LastOnes(s: seq<real>, n: nat): seq<real> {
    if |s| <= n then s else s[|s| - n..]
  }

  datatype Report = Empty | Report(count: nat, min: real, p50: real, p90: real, p95: real, p99: real, max: real)

  /** One bag. `accepted` is every sample ever taken in. */
  class Bag {
    var samples: seq<real>
    ghost var accepted: seq<real>

    ghost predicate Valid()
      reads this
    {
      samples == LastOnes(accepted, LIMIT)
    }

    constructor ()
      ensures Valid() && accepted == []
    {
      samples := [];
      accepted := [];
    }

    /** `None` stands for a missing value or one `float` cannot convert. */
    method Add(ms: Option<real>)
      requires Valid()
      modifies this
      ensures Valid()
      ensures accepted == if ms.Some? && ms.value >= 0.0 then old(accepted) + [ms.value] else old(accepted)
    {
      if ms == None || ms.value < 0.0 {
        return;
      }
      samples := samples + [ms.value];
      accepted := accepted + [ms.value];
      if |samples| > LIMIT {
        samples := samples[|samples| - LIMIT..];
      }
    }

    method Percentiles() returns (r: Report)
      requires Valid()
      ensures r == Summarise(LastOnes(accepted, LIMIT))
    {
      r := Summarise(samples);
    }
  }

  // ---------------------------------------------------------------------------
  // Order statistics
  // ---------------------------------------------------------------------------

  function Insert(x: real, s: seq<real>): seq<real> {
    if s == [] || x <= s[0] then [x] + s else [s[0]] + Insert(x, s[1..])
  }

  /** `sorted(s)`. */
  function Sort(s: seq<real>): (t: seq<real>)
  {
    if s == [] then [] else Insert(s[0], Sort(s[1..]))
  }

  /** Python's `round`: to the nearest integer, ties to the even one. */
  function HalfEven(x: real): int {
    var f := x.Floor;
    var d := x - f as real;
    if d < 0.5 || (d == 0.5 && f % 2 == 0) then f else f + 1
  }

  /** `round(x, 1)`. */
  function Tenths(x: real): real { HalfEven(10.0 * x) as real / 10.0 }

  /** The index `pct` reads for a percentage of n sorted samples. */
  function Index(n: nat, percent: nat): int
    requires n > 0
  {
    Clamp(n, HalfEven((n * percent) as real / 100.0) - 1)
  }

  function Clamp(n: nat, idx: int): int
    requires n > 0
  {
    var idx := if n - 1 < idx then n - 1 else idx;
    if idx < 0 then 0 else idx
  }

  /** `statistics.median` of a sorted list. */
  function Median(s: seq<real>): real
    requires s != []
  {
    var n := |s|;
    if n % 2 == 1 then s[n / 2] else (s[n / 2 - 1] + s[n / 2]) / 2.0
  }

  function Summarise(samples: seq<real>): Report {
    if samples == [] then Empty
    else
      var s := Sort(samples);
      SortPermutes(samples);
      var n := |s|;
      Report(n, Tenths(s[0]), Tenths(Median(s)), Tenths(s[Index(n, 90)]), Tenths(s[Index(n, 95)]),
             Tenths(s[Index(n, 99)]), Tenths(s[n - 1]))
  }

  // ---------------------------------------------------------------------------
  // Sorting
  // ---------------------------------------------------------------------------

  predicate Ordered(s: seq<real>) { forall i, j :: 0 <= i <= j < |s| ==> s[i] <= s[j] }

  /** How many samples are below v, or at most v. */
  function Below(s: seq<real>, v: real): nat {
    if s == [] then 0 else (if s[0] < v then 1 else 0) + Below(s[1..], v)
  }

  function AtMost(s: seq<real>, v: real): nat {
    if s == [] then 0 else (if s[0] <= v then 1 else 0) + AtMost(s[1..], v)
  }

  lemma {:induction false} InsertOrdered(x: real, s: seq<real>)
    requires Ordered(s)
    ensures Ordered(Insert(x, s))
    ensures multiset(Insert(x, s)) == multiset(s) + multiset{x}
    decreases |s|
  {
    if s != [] && x > s[0] {
      InsertOrdered(x, s[1..]);
      var t := Insert(x, s[1..]);
      assert s == [s[0]] + s[1..];
      forall j | 0 <= j < |t| ensures s[0] <= t[j] {
        assert t[j] in multiset(t);
        assert t[j] == x || t[j] in s[1..];
      }
    }
  }

  lemma {:induction false} SortPermutes(s: seq<real>)
    ensures Ordered(Sort(s)) && multiset(Sort(s)) == multiset(s) && |Sort(s)| == |s|
    decreases |s|
  {
    if s != [] {
      SortPermutes(s[1..]);
      InsertOrdered(s[0], Sort(s[1..]));
      assert s == [s[0]] + s[1..];
      assert |multiset(Sort(s))| == |Sort(s)| && |multiset(s)| == |s|;
    }
  }

  lemma {:induction false} InsertCounts(x: real, s: seq<real>, v: real)
    ensures Below(Insert(x, s), v) == Below(s, v) + (if x < v then 1 else 0)
    ensures AtMost(Insert(x, s), v) == AtMost(s, v) + (if x <= v then 1 else 0)
    decreases |s|
  {
    if s == [] || x <= s[0] {
      assert ([x] + s)[1..] == s;
    } else {
      InsertCounts(x, s[1..], v);
      assert ([s[0]] + Insert(x, s[1..]))[1..] == Insert(x, s[1..]);
    }
  }

  lemma {:induction false} SortCounts(s: seq<real>, v: real)
    ensures Below(Sort(s), v) == Below(s, v) && AtMost(Sort(s), v) == AtMost(s, v)
    decreases |s|
  {
    if s != [] {
      SortCounts(s[1..], v);
      InsertCounts(s[0], Sort(s[1..]), v);
    }
  }

  lemma {:induction false} OrderedCounts(s: seq<real>, i: nat)
    requires Ordered(s) && i < |s|
    ensures Below(s, s[i]) <= i < AtMost(s, s[i])
    decreases |s|
  {
    var rest := s[1..];
    assert Ordered(rest) by { assert forall j :: 0 <= j < |rest| ==> rest[j] == s[j + 1]; }
    if i > 0 {
      assert rest[i - 1] == s[i];
      OrderedCounts(rest, i - 1);
    } else {
      NoneBelow(rest, s[0]);
    }
  }

  lemma {:induction false} NoneBelow(s: seq<real>, v: real)
    requires forall j :: 0 <= j < |s| ==> v <= s[j]
    ensures Below(s, v) == 0
    decreases |s|
  {
    if s != [] { NoneBelow(s[1..], v); }
  }

  // ---------------------------------------------------------------------------
  // Main results
  // ---------------------------------------------------------------------------

  lemma HalfEvenNearest(x: real)
    ensures -0.5 <= HalfEven(x) as real - x <= 0.5
    ensures HalfEven(x) as real - x == 0.5 || x - HalfEven(x) as real == 0.5 ==> HalfEven(x) % 2 == 0
  {
  }

  lemma HalfEvenMonotone(x: real, y: real)
    requires x <= y
    ensures HalfEven(x) <= HalfEven(y)
  {
    assert x.Floor <= y.Floor;
  }

  lemma TenthsMonotone(x: real, y: real)
    requires x <= y
    ensures Tenths(x) <= Tenths(y)
  {
    HalfEvenMonotone(10.0 * x, 10.0 * y);
  }

  /** The value read for a percentage is that order statistic of the unsorted bag: no more than
      its index lie below it, and more than its index are at most it. The index is one less than
      the percentage of the count, rounded, held to the bag. */
  lemma PercentileIsOrderStatistic(samples: seq<real>, percent: nat)
    requires samples != [] && percent <= 100
    ensures |Sort(samples)| == |samples|
    ensures var i := Index(|samples|, percent);
            var v := Sort(samples)[i];
            0 <= i < |samples| && v in samples
            && Below(samples, v) <= i < AtMost(samples, v)
            && (i == 0 || -50 <= 100 * (i + 1) - |samples| * percent <= 50)
  {
    SortPermutes(samples);
    var i := Index(|samples|, percent);
    IndexMeaning(|samples|, percent);
    var v := Sort(samples)[i];
    assert v in multiset(Sort(samples));
    OrderedCounts(Sort(samples), i);
    SortCounts(samples, v);
  }

  lemma IndexMeaning(n: nat, percent: nat)
    requires n > 0 && percent <= 100
    ensures 0 <= Index(n, percent) < n
    ensures Index(n, percent) == 0 || -50 <= 100 * (Index(n, percent) + 1) - n * percent <= 50
  {
    MulBound(n, percent);
    NearestPercent(n * percent);
    ClampMeaning(n, n * percent, HalfEven((n * percent) as real / 100.0));
  }

  lemma MulBound(n: nat, percent: nat)
    requires percent <= 100
    ensures n * percent <= 100 * n
  {
  }

  lemma ClampMeaning(n: nat, k: nat, h: int)
    requires n > 0 && k <= 100 * n && -50 <= 100 * h - k <= 50
    ensures var i := Clamp(n, h - 1); 0 <= i < n && (i == 0 || -50 <= 100 * (i + 1) - k <= 50)
  {
  }

  lemma NearestPercent(k: nat)
    ensures -50 <= 100 * HalfEven(k as real / 100.0) - k <= 50
  {
    HalfEvenNearest(k as real / 100.0);
    var h := HalfEven(k as real / 100.0);
    assert (100 * h - k) as real == 100.0 * (h as real - k as real / 100.0);
  }

  lemma {:induction false} CountsMonotone(s: seq<real>, v: real, w: real)
    requires v <= w
    ensures Below(s, v) <= Below(s, w) && AtMost(s, v) <= AtMost(s, w)
    decreases |s|
  {
    if s != [] { CountsMonotone(s[1..], v, w); }
  }

  /** At least half of the bag is at most the median, and at least half is at least it. */
  lemma MedianSplits(samples: seq<real>)
    requires samples != []
    ensures Sort(samples) != []
    ensures var m := Median(Sort(samples));
            2 * AtMost(samples, m) >= |samples| && 2 * (|samples| - Below(samples, m)) >= |samples|
  {
    SortPermutes(samples);
    var s := Sort(samples);
    var lo, hi := (|s| - 1) / 2, |s| / 2;
    OrderedCounts(s, lo);
    OrderedCounts(s, hi);
    CountsMonotone(s, s[lo], Median(s));
    CountsMonotone(s, Median(s), s[hi]);
    SortCounts(samples, Median(s));
  }

  lemma IndexMonotone(n: nat, p: nat, q: nat)
    requires n > 0 && p <= q
    ensures Index(n, p) <= Index(n, q)
  {
    HalfEvenMonotone((n * p) as real / 100.0, (n * q) as real / 100.0);
  }

  /** The 90th percentile never sits below the upper middle element. */
  lemma MedianBelowP90(n: nat)
    requires n > 0
    ensures n / 2 <= Index(n, 90) < n
  {
    var x := (n * 90) as real / 100.0;
    HalfEvenNearest(x);
    if n == 1 {
      assert x == 0.9;
    } else if n == 2 {
      assert x == 1.8;
    } else if n == 3 {
      assert x == 2.7;
    } else {
      assert HalfEven(x) as real >= 0.9 * n as real - 0.5;
    }
  }

  /** Every nonempty bag reports min <= p50 <= p90 <= p95 <= p99 <= max, and its size. */
  lemma ReportOrdered(samples: seq<real>)
    requires samples != []
    ensures var r := Summarise(samples);
            r.Report? && r.count == |samples| && r.min <= r.p50 <= r.p90 <= r.p95 <= r.p99 <= r.max
  {
    SortPermutes(samples);
    var s := Sort(samples);
    var n := |s|;
    MedianBelowP90(n);
    IndexMonotone(n, 90, 95);
    IndexMonotone(n, 95, 99);
    TenthsMonotone(s[0], Median(s));
    TenthsMonotone(Median(s), s[Index(n, 90)]);
    TenthsMonotone(s[Index(n, 90)], s[Index(n, 95)]);
    TenthsMonotone(s[Index(n, 95)], s[Index(n, 99)]);
    TenthsMonotone(s[Index(n, 99)], s[n - 1]);
  }

  /** r is v to one decimal: the nearest multiple of a tenth, the even one of two. */
  ghost predicate ToOneDecimal(v: real, r: real) {
    exists n: int :: r == n as real / 10.0 && -0.05 <= r - v <= 0.05 && (r - v == 0.05 || v - r == 0.05 ==> n % 2 == 0)
  }

  /** v is the sample with i others before it in increasing order. */
  predicate RankedAt(samples: seq<real>, i: int, v: real) {
    v in samples && Below(samples, v) <= i < AtMost(samples, v)
  }

  /** i + 1 is that percentage of n, rounded, the even one of two. */
  predicate ShareOf(n: nat, percent: nat, i: int) {
    && 0 <= i < n && -50 <= 100 * (i + 1) - n * percent <= 50
    && (100 * (i + 1) - n * percent == 50 || n * percent - 100 * (i + 1) == 50 ==> (i + 1) % 2 == 0)
  }

  /** A reported percentile is, to one decimal, the sample with the percentage's share of the others
      before it. */
  ghost predicate IsPercentile(samples: seq<real>, percent: nat, r: real) {
    exists i: int, v: real :: ShareOf(|samples|, percent, i) && RankedAt(samples, i, v) && ToOneDecimal(v, r)
  }

  /** The reported median is, to one decimal, halfway between the two samples in the middle, which are
      one if their number is odd. */
  ghost predicate IsMedian(samples: seq<real>, r: real) { exists lo: real, hi: real :: Middle(samples, lo, hi, r) }

  ghost predicate Middle(samples: seq<real>, lo: real, hi: real, r: real) {
    && RankedAt(samples, (|samples| - 1) / 2, lo) && RankedAt(samples, |samples| / 2, hi)
    && ToOneDecimal((lo + hi) / 2.0, r)
  }

  ghost predicate IsLeast(samples: seq<real>, r: real) {
    exists v: real :: v in samples && (forall x :: x in samples ==> v <= x) && ToOneDecimal(v, r)
  }

  ghost predicate IsGreatest(samples: seq<real>, r: real) {
    exists v: real :: v in samples && (forall x :: x in samples ==> x <= v) && ToOneDecimal(v, r)
  }

  lemma TenthsIs(v: real)
    ensures ToOneDecimal(v, Tenths(v))
  {
    var n := HalfEven(10.0 * v);
    HalfEvenNearest(10.0 * v);
    assert Tenths(v) == n as real / 10.0;
  }

  lemma NearestShare(k: nat)
    ensures var h := HalfEven(k as real / 100.0);
            -50 <= 100 * h - k <= 50 && (100 * h - k == 50 || k - 100 * h == 50 ==> h % 2 == 0)
  {
    HalfEvenNearest(k as real / 100.0);
    var h := HalfEven(k as real / 100.0);
    assert (100 * h - k) as real == 100.0 * (h as real - k as real / 100.0);
  }

  lemma IndexIsShare(n: nat, percent: nat)
    requires n > 0 && 50 < percent <= 100
    ensures ShareOf(n, percent, Index(n, percent))
  {
    var k := n * percent;
    MulBound(n, percent);
    MoreThanHalf(n, percent);
    NearestShare(k);
    var h := HalfEven(k as real / 100.0);
    assert 1 <= h <= n;
    assert Index(n, percent) == h - 1;
  }

  lemma MoreThanHalf(n: nat, percent: nat)
    requires n > 0 && percent > 50
    ensures n * percent > 50
  {
  }

  lemma SortedRanked(samples: seq<real>, i: nat)
    requires i < |samples|
    ensures |Sort(samples)| == |samples| && RankedAt(samples, i, Sort(samples)[i])
  {
    SortPermutes(samples);
    var v := Sort(samples)[i];
    assert v in multiset(Sort(samples));
    OrderedCounts(Sort(samples), i);
    SortCounts(samples, v);
  }

  lemma SortedPercentile(samples: seq<real>, percent: nat)
    requires samples != [] && 50 < percent <= 100
    ensures |Sort(samples)| == |samples| && 0 <= Index(|samples|, percent) < |samples|
    ensures IsPercentile(samples, percent, Tenths(Sort(samples)[Index(|samples|, percent)]))
  {
    var i := Index(|samples|, percent);
    IndexIsShare(|samples|, percent);
    SortedRanked(samples, i);
    var v := Sort(samples)[i];
    TenthsIs(v);
    assert ShareOf(|samples|, percent, i) && RankedAt(samples, i, v) && ToOneDecimal(v, Tenths(v));
  }

  lemma SortedMedian(samples: seq<real>)
    requires samples != []
    ensures Sort(samples) != [] && IsMedian(samples, Tenths(Median(Sort(samples))))
  {
    var n := |samples|;
    SortedRanked(samples, (n - 1) / 2);
    SortedRanked(samples, n / 2);
    var lo, hi := Sort(samples)[(n - 1) / 2], Sort(samples)[n / 2];
    assert Median(Sort(samples)) == (lo + hi) / 2.0;
    TenthsIs((lo + hi) / 2.0);
    assert Middle(samples, lo, hi, Tenths((lo + hi) / 2.0));
  }

  lemma SortedEnds(samples: seq<real>)
    requires samples != []
    ensures var s := Sort(samples);
            s != [] && IsLeast(samples, Tenths(s[0])) && IsGreatest(samples, Tenths(s[|s| - 1]))
  {
    SortPermutes(samples);
    var s := Sort(samples);
    forall x | x in samples ensures s[0] <= x <= s[|s| - 1] {
      assert x in multiset(s);
      var j :| 0 <= j < |s| && s[j] == x;
      assert s[0] <= s[j] <= s[|s| - 1];
    }
    assert s[0] in multiset(s) && s[|s| - 1] in multiset(s);
    TenthsIs(s[0]);
    TenthsIs(s[|s| - 1]);
  }

  /** Each field of the report is what it is named for. */
  lemma ReportIs(samples: seq<real>)
    ensures samples == [] ==> Summarise(samples) == Empty
    ensures samples != [] ==>
              var r := Summarise(samples);
              && r.Report? && r.count == |samples|
              && IsLeast(samples, r.min) && IsMedian(samples, r.p50)
              && IsPercentile(samples, 90, r.p90) && IsPercentile(samples, 95, r.p95) && IsPercentile(samples, 99, r.p99)
              && IsGreatest(samples, r.max)
  {
    if samples != [] {
      SortPermutes(samples);
      SortedEnds(samples);
      SortedMedian(samples);
      SortedPercentile(samples, 90);
      SortedPercentile(samples, 95);
      SortedPercentile(samples, 99);
    }
  }

  /** The window: all of the samples up to the limit, else as many of the last. */
  lemma LastOnesAre(s: seq<real>, n: nat)
    ensures |LastOnes(s, n)| == if |s| <= n then |s| else n
    ensures s == s[..|s| - |LastOnes(s, n)|] + LastOnes(s, n)
  {
  }

  /** For any run of additions the bag holds the last 5000 accepted samples, in arrival order. */
  function Accepted(inputs: seq<Option<real>>): seq<real> {
    if inputs == [] then []
    else
      var last := inputs[|inputs| - 1];
      Accepted(inputs[..|inputs| - 1]) + (if last.Some? && last.value >= 0.0 then [last.value] else [])
  }

  method AddAll(bag: Bag, inputs: seq<Option<real>>)
    requires bag.Valid() && bag.accepted == []
    modifies bag
    ensures bag.samples == LastOnes(Accepted(inputs), LIMIT)
    ensures |bag.samples| <= 5000 && (|bag.samples| < 5000 ==> bag.samples == Accepted(inputs))
  {
    for i := 0 to |inputs|
      invariant bag.Valid() && bag.accepted == Accepted(inputs[..i])
    {
      assert inputs[..i + 1][..i] == inputs[..i];
      bag.Add(inputs[i]);
    }
    assert inputs[..|inputs|] == inputs;
  }
}
